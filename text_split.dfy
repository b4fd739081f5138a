/**
 * Python's `str.split(sep)` and `sep.join(parts)` on strings, for a non-empty
 * separator. Split scans left to right and cuts at every leftmost,
 * non-overlapping occurrence of the separator; the separators themselves are
 * dropped and nothing else is.
 */
module TextSplit {

  /** `t` occurs in `s` starting at index `i`. */
  predicate OccursAt(s: string, t: string, i: int)
  {
    0 <= i && i + |t| <= |s| && s[i..i + |t|] == t
  }

  predicate Contains(s: string, t: string)
  {
    exists i | 0 <= i <= |s| :: OccursAt(s, t, i)
  }

  /** `s.split(sep)`. Python rejects an empty separator, hence the requires. */
  function Split(s: string, sep: string): (parts: seq<string>)
    requires sep != []
    ensures |parts| >= 1
    ensures |parts[0]| <= |s| && parts[0] == s[..(|parts[0]|)]
    decreases |s|
  {
    if |s| < |sep| then [s]
    else if s[..|sep|] == sep then [""] + Split(s[|sep|..], sep)
    else
      var rest := Split(s[1..], sep);
      [[s[0]] + rest[0]] + rest[1..]
  }

  /** `sep.join(parts)`. */
  function Join(parts: seq<string>, sep: string): string
  {
    if |parts| == 0 then ""
    else if |parts| == 1 then parts[0]
    else parts[0] + sep + Join(parts[1..], sep)
  }

  /** Joining the pieces of a split with the same separator gives back the input. */
  lemma {:induction false} JoinSplit(s: string, sep: string)
    requires sep != []
    ensures Join(Split(s, sep), sep) == s
    decreases |s|
  {
    if |s| < |sep| {
    } else if s[..|sep|] == sep {
      var rest := Split(s[|sep|..], sep);
      JoinSplit(s[|sep|..], sep);
      assert Split(s, sep) == [""] + rest;
      assert ([""] + rest)[1..] == rest;
      assert s == sep + s[|sep|..];
    } else {
      var rest := Split(s[1..], sep);
      JoinSplit(s[1..], sep);
      var parts := Split(s, sep);
      assert parts == [[s[0]] + rest[0]] + rest[1..];
      if |rest| == 1 {
        assert s == [s[0]] + s[1..];
      } else {
        assert parts[1..] == rest[1..];
        assert Join(rest, sep) == rest[0] + sep + Join(rest[1..], sep);
        assert s == [s[0]] + s[1..];
      }
    }
  }

  /** No piece of a split contains the separator. */
  lemma {:induction false} SplitPartsAvoidSeparator(s: string, sep: string)
    requires sep != []
    ensures forall k :: 0 <= k < |Split(s, sep)| ==> !Contains(Split(s, sep)[k], sep)
    decreases |s|
  {
    var parts := Split(s, sep);
    if |s| < |sep| {
      assert forall i :: !OccursAt(s, sep, i);
    } else if s[..|sep|] == sep {
      var rest := Split(s[|sep|..], sep);
      SplitPartsAvoidSeparator(s[|sep|..], sep);
      assert parts == [""] + rest;
      assert forall i :: !OccursAt("", sep, i);
      forall k | 0 <= k < |parts| ensures !Contains(parts[k], sep) {
        if k > 0 { assert parts[k] == rest[k - 1]; }
      }
    } else {
      var rest := Split(s[1..], sep);
      SplitPartsAvoidSeparator(s[1..], sep);
      var first := [s[0]] + rest[0];
      assert parts == [first] + rest[1..];
      assert first == s[..(|first|)];
      forall i ensures !OccursAt(first, sep, i) {
        if i == 0 && |sep| <= |first| {
          assert first[..|sep|] == s[..|sep|];
        } else if 0 < i && i + |sep| <= |first| {
          assert first[i..i + |sep|] == rest[0][i - 1..i - 1 + |sep|];
          assert !OccursAt(rest[0], sep, i - 1);
        }
      }
      forall k | 0 <= k < |parts| ensures !Contains(parts[k], sep) {
        if k > 0 { assert parts[k] == rest[k]; }
      }
    }
  }

  /** A string without the separator is not cut at all. */
  lemma {:induction false} SplitWithoutSeparator(s: string, sep: string)
    requires sep != [] && !Contains(s, sep)
    ensures Split(s, sep) == [s]
    decreases |s|
  {
    if |s| >= |sep| {
      assert !OccursAt(s, sep, 0);
      forall i ensures !OccursAt(s[1..], sep, i) {
        if 0 <= i && i + |sep| <= |s[1..]| {
          assert s[1..][i..i + |sep|] == s[i + 1..i + 1 + |sep|];
          assert !OccursAt(s, sep, i + 1);
        }
      }
      SplitWithoutSeparator(s[1..], sep);
      assert [s[0]] + s[1..] == s;
    }
  }

  /**
   * A segment that is followed by the separator is cut off exactly there, as
   * long as no occurrence of the separator starts inside the segment, not even
   * one that runs on into the separator that follows it.
   */
  predicate EndsCleanly(seg: string, sep: string)
    requires sep != []
  {
    !Contains(seg + sep[..|sep| - 1], sep)
  }

  lemma {:induction false} SplitAfterSegment(seg: string, sep: string, rest: string)
    requires sep != [] && EndsCleanly(seg, sep)
    ensures Split(seg + sep + rest, sep) == [seg] + Split(rest, sep)
    decreases |seg|
  {
    var s := seg + sep + rest;
    if seg == [] {
      assert s == sep + rest;
      assert s[..|sep|] == sep && s[|sep|..] == rest;
    } else {
      var head := seg + sep[..|sep| - 1];
      assert !OccursAt(head, sep, 0);
      assert head[..|sep|] == s[..|sep|];
      var seg' := seg[1..];
      var tail := seg' + sep[..|sep| - 1];
      assert tail == head[1..];
      forall i | 0 <= i <= |tail| ensures !OccursAt(tail, sep, i) {
        if i + |sep| <= |tail| {
          assert tail[i..i + |sep|] == head[i + 1..i + 1 + |sep|];
          assert !OccursAt(head, sep, i + 1);
        }
      }
      assert EndsCleanly(seg', sep);
      SplitAfterSegment(seg', sep, rest);
      assert s[1..] == seg' + sep + rest;
      var r := Split(s[1..], sep);
      assert Split(s, sep) == [[s[0]] + r[0]] + r[1..];
      assert [s[0]] + seg' == seg;
    }
  }

  /**
   * The pieces `parts` can be recovered from their join: every piece but the
   * last ends cleanly before the separator and the last has none.
   */
  predicate Separable(parts: seq<string>, sep: string)
    requires sep != []
  {
    && |parts| >= 1
    && (forall k :: 0 <= k < |parts| - 1 ==> EndsCleanly(parts[k], sep))
    && !Contains(parts[|parts| - 1], sep)
  }

  /** Splitting the join of separable pieces gives back those pieces, in order. */
  lemma {:induction false} SplitJoin(parts: seq<string>, sep: string)
    requires sep != [] && Separable(parts, sep)
    ensures Split(Join(parts, sep), sep) == parts
    decreases |parts|
  {
    if |parts| == 1 {
      SplitWithoutSeparator(parts[0], sep);
    } else {
      assert EndsCleanly(parts[0], sep);
      assert Separable(parts[1..], sep) by {
        forall k | 0 <= k < |parts[1..]| - 1 ensures EndsCleanly(parts[1..][k], sep) {
          assert parts[1..][k] == parts[k + 1];
        }
      }
      SplitJoin(parts[1..], sep);
      SplitAfterSegment(parts[0], sep, Join(parts[1..], sep));
      assert [parts[0]] + parts[1..] == parts;
    }
  }

  /** Appending the separator to a join is the same as joining one more, empty, piece. */
  lemma {:induction false} JoinAppendEmpty(parts: seq<string>, sep: string)
    requires |parts| >= 1
    ensures Join(parts + [""], sep) == Join(parts, sep) + sep
    decreases |parts|
  {
    if |parts| == 1 {
      assert Join([parts[0], ""], sep) == parts[0] + sep + Join([""], sep);
    } else {
      assert (parts + [""])[1..] == parts[1..] + [""];
      JoinAppendEmpty(parts[1..], sep);
    }
  }
}
