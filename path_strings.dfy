/** Python's `str.split("/")` and `"/".join(...)` on `seq<char>`, with the facts about them
    that the S3 key construction relies on. */
module PathStrings {

  /** True when `s` holds no path delimiter. */
  predicate SlashFree(s: string) {
    forall i :: 0 <= i < |s| ==> s[i] != '/'
  }

  predicate AllSlashFree(parts: seq<string>) {
    forall i :: 0 <= i < |parts| ==> SlashFree(parts[i])
  }

  /** `s.split("/")`: always at least one part ("" splits to [""]), and no part holds a '/'. */
  function Split(s: string): (parts: seq<string>)
    ensures |parts| >= 1
    ensures AllSlashFree(parts)
    ensures |parts| == 1 ==> parts[0] == s
  {
    if s == [] then [""]
    else if s[0] == '/' then [""] + Split(s[1..])
    else
      var rest := Split(s[1..]);
      [[s[0]] + rest[0]] + rest[1..]
  }

  /** `"/".join(parts)`. */
  function Join(parts: seq<string>): string
  {
    if |parts| == 0 then ""
    else if |parts| == 1 then parts[0]
    else parts[0] + "/" + Join(parts[1..])
  }

  /** The joined string starts with the first part followed by '/', and ends with the last. */
  lemma {:induction false} JoinEnds(parts: seq<string>)
    requires |parts| > 0
    ensures parts[0] <= Join(parts)
    ensures |parts| > 1 ==> |parts[0]| < |Join(parts)| && Join(parts)[|parts[0]|] == '/'
    ensures var s, last := Join(parts), parts[|parts| - 1];
            |last| <= |s| && s[|s| - |last|..] == last
  {
    if |parts| > 1 {
      JoinEnds(parts[1..]);
      var s, rest := Join(parts), Join(parts[1..]);
      assert s == parts[0] + "/" + rest;
      assert s[|s| - |rest|..] == rest;
    }
  }

  /** Joining what was split gives back the original string. */
  lemma {:induction false} JoinSplit(s: string)
    ensures Join(Split(s)) == s
  {
    if s == [] {
    } else if s[0] == '/' {
      JoinSplit(s[1..]);
      assert s == "/" + s[1..];
    } else {
      var rest := Split(s[1..]);
      JoinSplit(s[1..]);
      if |rest| == 1 {
        assert s == [s[0]] + s[1..];
      } else {
        assert Join(rest) == rest[0] + "/" + Join(rest[1..]);
        assert s == [s[0]] + s[1..];
      }
    }
  }

  /** A string without '/' is a single segment. */
  lemma {:induction false} SplitSlashFree(s: string)
    requires SlashFree(s)
    ensures Split(s) == [s]
  {
    if s != [] {
      SplitSlashFree(s[1..]);
    }
  }

  /** Splitting at a delimiter splits each side separately. */
  lemma {:induction false} SplitAtSlash(a: string, b: string)
    ensures Split(a + "/" + b) == Split(a) + Split(b)
  {
    if a == [] {
      assert a + "/" + b == "/" + b;
      assert ("/" + b)[1..] == b;
    } else {
      var s := a + "/" + b;
      assert s[1..] == a[1..] + "/" + b;
      SplitAtSlash(a[1..], b);
      if a[0] != '/' {
        var ra := Split(a[1..]);
        assert Split(s[1..]) == ra + Split(b);
        assert (ra + Split(b))[0] == ra[0];
        assert (ra + Split(b))[1..] == ra[1..] + Split(b);
      }
    }
  }

  /** Splitting what was joined from delimiter-free parts gives back the parts. */
  lemma {:induction false} SplitJoin(parts: seq<string>)
    requires |parts| >= 1 && AllSlashFree(parts)
    ensures Split(Join(parts)) == parts
  {
    if |parts| == 1 {
      SplitSlashFree(parts[0]);
    } else {
      SplitJoin(parts[1..]);
      SplitSlashFree(parts[0]);
      SplitAtSlash(parts[0], Join(parts[1..]));
      assert parts == [parts[0]] + parts[1..];
    }
  }

  lemma {:induction false} JoinCons(head: string, tail: seq<string>)
    requires |tail| >= 1
    ensures Join([head] + tail) == head + "/" + Join(tail)
  {
    assert ([head] + tail)[1..] == tail;
  }

  lemma {:induction false} JoinSnoc(init: seq<string>, last: string)
    requires |init| >= 1
    ensures Join(init + [last]) == Join(init) + "/" + last
  {
    if |init| == 1 {
      assert init + [last] == [init[0], last];
    } else {
      JoinSnoc(init[1..], last);
      assert (init + [last])[1..] == init[1..] + [last];
    }
  }

  /** Extending the last part extends the joined string by the same suffix. */
  lemma {:induction false} JoinExtendLast(init: seq<string>, last: string, suffix: string)
    ensures Join(init + [last + suffix]) == Join(init + [last]) + suffix
  {
    if |init| == 0 {
      assert init + [last + suffix] == [last + suffix];
      assert init + [last] == [last];
    } else {
      JoinSnoc(init, last + suffix);
      JoinSnoc(init, last);
    }
  }

  /** Keeps the parts that are not empty (`[part for part in parts if part]`). */
  function NonEmptyParts(parts: seq<string>): (kept: seq<string>)
    ensures |kept| <= |parts|
    ensures forall i :: 0 <= i < |kept| ==> kept[i] != ""
    ensures forall i :: 0 <= i < |kept| ==> kept[i] in parts
    ensures forall i :: 0 <= i < |parts| && parts[i] != "" ==> parts[i] in kept
    ensures |parts| == 1 ==> kept == (if parts[0] == "" then [] else parts)
  {
    if |parts| == 0 then []
    else if parts[0] == "" then NonEmptyParts(parts[1..])
    else [parts[0]] + NonEmptyParts(parts[1..])
  }

  /** Filtering distributes over concatenation, so the kept parts keep their order. */
  lemma {:induction false} NonEmptyPartsAppend(a: seq<string>, b: seq<string>)
    ensures NonEmptyParts(a + b) == NonEmptyParts(a) + NonEmptyParts(b)
  {
    if |a| > 0 {
      NonEmptyPartsAppend(a[1..], b);
      assert (a + b)[1..] == a[1..] + b;
    } else {
      assert a + b == b;
    }
  }

  lemma {:induction false} NonEmptyPartsOfNonEmpty(parts: seq<string>)
    requires forall i :: 0 <= i < |parts| ==> parts[i] != ""
    ensures NonEmptyParts(parts) == parts
  {
    if |parts| > 0 {
      NonEmptyPartsOfNonEmpty(parts[1..]);
      assert parts == [parts[0]] + parts[1..];
    }
  }

  /** A path with no empty segment: no leading or trailing '/', and no "//". */
  predicate NoEmptySegments(s: string) {
    && (|s| > 0 ==> s[0] != '/' && s[|s| - 1] != '/')
    && forall i :: 0 <= i < |s| - 1 ==> !(s[i] == '/' && s[i + 1] == '/')
  }

  /** Joining non-empty, delimiter-free parts never produces an empty segment. */
  lemma {:induction false} JoinNoEmptySegments(parts: seq<string>)
    requires AllSlashFree(parts)
    requires forall i :: 0 <= i < |parts| ==> parts[i] != ""
    ensures NoEmptySegments(Join(parts))
    ensures |parts| > 0 ==> |Join(parts)| > 0
  {
    if |parts| > 1 {
      JoinNoEmptySegments(parts[1..]);
      var head, rest := parts[0], Join(parts[1..]);
      var s := head + "/" + rest;
      assert SlashFree(head);
      forall i | 0 <= i < |s| - 1
        ensures !(s[i] == '/' && s[i + 1] == '/')
      {
        if i < |head| {
          assert s[i] == head[i];
        } else if i == |head| {
          assert s[i + 1] == rest[0];
        } else {
          assert s[i] == rest[i - |head| - 1] && s[i + 1] == rest[i - |head|];
        }
      }
    }
  }
}
