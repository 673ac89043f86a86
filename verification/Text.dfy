/** Lists written as text with a delimiter. */
module Text {
  import opened Basics

  function Split(s: string, d: char): (r: seq<string>)
    ensures r != []
  {
    if s == "" then [""]
    else if s[0] == d then [""] + Split(s[1..], d)
    else
      var r := Split(s[1..], d);
      [[s[0]] + r[0]] + r[1..]
  }

  function Join(ps: seq<string>, d: char): string {
    if ps == [] then "" else if |ps| == 1 then ps[0] else ps[0] + [d] + Join(ps[1..], d)
  }

  predicate Free(p: string, d: char) { forall i :: 0 <= i < |p| ==> p[i] != d }

  /** Splitting loses nothing and leaves no delimiter. */
  lemma {:induction false} SplitJoins(s: string, d: char)
    ensures Join(Split(s, d), d) == s && forall k :: 0 <= k < |Split(s, d)| ==> Free(Split(s, d)[k], d)
  {
    if s != "" {
      SplitJoins(s[1..], d);
      var r := Split(s[1..], d);
      if s[0] == d {
        assert Split(s, d)[1..] == r;
        assert "" + [d] + Join(r, d) == s;
      } else {
        var t := [[s[0]] + r[0]] + r[1..];
        if |r| > 1 {
          assert t[1..] == r[1..];
          assert ([s[0]] + r[0]) + [d] + Join(r[1..], d) == [s[0]] + (r[0] + [d] + Join(r[1..], d));
        }
        assert Join(t, d) == [s[0]] + Join(r, d);
      }
    }
  }

  /** A piece without a delimiter, in front of a list. */
  lemma {:induction false} SplitPiece(p: string, rest: string, d: char)
    requires Free(p, d)
    ensures Split(p + [d] + rest, d) == [p] + Split(rest, d)
    ensures Split(p, d) == [p]
  {
    if p == "" {
      assert ("" + [d] + rest)[1..] == rest;
    } else {
      var s := p + [d] + rest;
      assert s[1..] == p[1..] + [d] + rest;
      SplitPiece(p[1..], rest, d);
      assert ([p[1..]] + Split(rest, d))[1..] == Split(rest, d);
      assert [p[0]] + p[1..] == p;
      assert [p[1..]][1..] == [];
    }
  }

  /** The position of the next delimiter, or the end. */
  method FindDelimiter(s: string, start: nat, d: char) returns (end: nat)
    requires start <= |s|
    ensures start <= end <= |s| && Free(s[start..end], d) && (end < |s| ==> s[end] == d)
  {
    end := start;
    while end < |s| && s[end] != d
      invariant start <= end <= |s| && Free(s[start..end], d)
    {
      assert s[start..end + 1] == s[start..end] + [s[end]];
      end := end + 1;
    }
  }

  method SplitLoop(s: string, d: char) returns (pieces: seq<string>)
    ensures pieces == Split(s, d)
  {
    hide Split;
    pieces := [];
    var start := 0;
    var end := FindDelimiter(s, 0, d);
    assert s[0..] == s;
    while end < |s|
      invariant 0 <= start <= end <= |s|
      invariant Free(s[start..end], d) && (end < |s| ==> s[end] == d)
      invariant pieces + Split(s[start..], d) == Split(s, d)
      decreases |s| - start
    {
      SplitPiece(s[start..end], s[end + 1..], d);
      assert s[start..] == s[start..end] + [d] + s[end + 1..];
      Assoc(pieces, [s[start..end]], Split(s[end + 1..], d));
      pieces := pieces + [s[start..end]];
      start := end + 1;
      end := FindDelimiter(s, start, d);
    }
    assert s[start..end] == s[start..];
    SplitPiece(s[start..], "", d);
    pieces := pieces + [s[start..]];
  }
}
