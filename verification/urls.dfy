/**
  The two links the service derives: a store's access URL, made when the
  store is created, and a consumer's ticket URL, made when the consumer joins
  the line. Both are formatted as `"%s/%s"`.
 */
module Urls {
  import opened Text

  /** `fmt.Sprintf("%s/%s", base, strings.ToLower(name))`. */
  function StoreURL(base: string, name: string): (u: string)
    ensures |u| == |base| + 1 + |name|
    ensures u[..|base| + 1] == base + "/"
    ensures forall i :: 0 <= i < |name| ==> u[|base| + 1 + i] == LowerChar(name[i])
    ensures NoUpper(u[|base| + 1..])
  {
    base + "/" + ToLower(name)
  }

  /** `fmt.Sprintf("%s/%s", storeURL, accessKey)`. */
  function TicketURL(storeURL: string, accessKey: string): (t: string)
    ensures |t| == |storeURL| + 1 + |accessKey|
    ensures t[..|storeURL|] == storeURL && t[|storeURL|] == '/'
    ensures '/' !in accessKey ==> LastSegment(t) == accessKey
  {
    var t := storeURL + "/" + accessKey;
    assert '/' !in accessKey ==> LastSegment(t) == accessKey by {
      if '/' !in accessKey {
        LastSegmentAfterSlash(storeURL, accessKey);
      }
    }
    t
  }

  /** The text after the last `/` of a URL (all of it when there is none). */
  function LastSegment(u: string): (seg: string)
    ensures '/' !in seg
    ensures |seg| <= |u| && seg == u[|u| - |seg|..]
    ensures seg == u || u[|u| - |seg| - 1] == '/'
  {
    if u == [] || u[|u| - 1] == '/' then []
    else LastSegment(u[..|u| - 1]) + [u[|u| - 1]]
  }

  /** A store's access URL starts with the base and a slash, and the rest is
      the lower-cased name. */
  lemma StoreURLShape(base: string, name: string)
    ensures |StoreURL(base, name)| == |base| + 1 + |name|
    ensures StoreURL(base, name)[..|base| + 1] == base + "/"
    ensures StoreURL(base, name)[|base| + 1..] == ToLower(name)
    ensures NoUpper(StoreURL(base, name)[|base| + 1..])
  {
  }

  /** A store's access URL ends in the lower-cased name when the name holds
      no `/`. */
  lemma StoreURLLastSegment(base: string, name: string)
    requires '/' !in name
    ensures LastSegment(StoreURL(base, name)) == ToLower(name)
  {
    assert '/' !in ToLower(name) by {
      forall i | 0 <= i < |name|
        ensures ToLower(name)[i] != '/'
      {
        assert name[i] != '/';
      }
    }
    LastSegmentAfterSlash(base, ToLower(name));
  }

  /** Store names are kept case-sensitively but their URLs are lower-cased:
      two names share an access URL exactly when they agree after
      lower-casing ("Outback" and "outback" do). */
  lemma StoreURLCollisionIff(base: string, n1: string, n2: string)
    ensures StoreURL(base, n1) == StoreURL(base, n2) <==> ToLower(n1) == ToLower(n2)
  {
    if StoreURL(base, n1) == StoreURL(base, n2) {
      StoreURLShape(base, n1);
      StoreURLShape(base, n2);
    }
  }

  /** Whatever precedes it, a slash-free final segment is recovered whole. */
  lemma {:induction false} LastSegmentAfterSlash(prefix: string, seg: string)
    requires '/' !in seg
    ensures LastSegment(prefix + "/" + seg) == seg
    decreases |seg|
  {
    var u := prefix + "/" + seg;
    if seg == [] {
      assert u[|u| - 1] == '/';
    } else {
      var init := seg[..|seg| - 1];
      assert u[..|u| - 1] == prefix + "/" + init;
      LastSegmentAfterSlash(prefix, init);
      assert seg == init + [seg[|seg| - 1]];
    }
  }

  /** A ticket URL splits back into the store's URL and the access key when
      the key holds no `/`. */
  lemma TicketURLSplit(storeURL: string, accessKey: string)
    requires '/' !in accessKey
    ensures LastSegment(TicketURL(storeURL, accessKey)) == accessKey
    ensures TicketURL(storeURL, accessKey)[..|storeURL|] == storeURL
  {
    LastSegmentAfterSlash(storeURL, accessKey);
  }
}
