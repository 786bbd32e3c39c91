/** Python's `s.split("/")` and `s.split("/")[-1]` on strings. */
module Segments {

  /** `s.split("/")`: the pieces between separators, in order; always at least one piece. */
  function Split(s: string): (parts: seq<string>)
    ensures |parts| >= 1
    ensures forall i :: 0 <= i < |parts| ==> '/' !in parts[i]
    ensures '/' !in s ==> parts == [s]
    decreases |s|
  {
    if s == [] then [""]
    else
      var init := Split(s[..|s| - 1]);
      var c := s[|s| - 1];
      assert s == s[..|s| - 1] + [c];
      if c == '/' then init + [""]
      else init[..|init| - 1] + [init[|init| - 1] + [c]]
  }

  /** `"/".join(parts)`. */
  function Join(parts: seq<string>): string
    requires |parts| >= 1
  {
    if |parts| == 1 then parts[0]
    else Join(parts[..|parts| - 1]) + "/" + parts[|parts| - 1]
  }

  /** `s.split("/")[-1]`: the text after the last '/', the whole string when there is
      no '/', and the empty string when `s` ends in '/'. */
  function LastSegment(s: string): (r: string)
    ensures '/' !in r
    ensures '/' !in s ==> r == s
  {
    var parts := Split(s);
    parts[|parts| - 1]
  }

  /** The last segment is the suffix after the last '/': a '/' stands just before it
      unless it is the whole string. Together with `'/' !in LastSegment(s)`, this
      determines the segment. */
  lemma LastSegmentIsSuffix(s: string)
    ensures var r := LastSegment(s);
      |r| <= |s| && r == s[|s| - |r|..] && (|r| < |s| ==> s[|s| - |r| - 1] == '/')
  {
    LastPieceIsSuffix(s);
  }

  /** The last piece of a split is what follows the last '/'. */
  lemma {:induction false} LastPieceIsSuffix(s: string)
    ensures var last := Split(s)[|Split(s)| - 1];
      |last| <= |s| && last == s[|s| - |last|..] &&
      (|last| < |s| ==> s[|s| - |last| - 1] == '/')
    decreases |s|
  {
    if s != [] {
      var s' := s[..|s| - 1];
      assert s == s' + [s[|s| - 1]];
      LastPieceIsSuffix(s');
    }
  }

  /** Appending a separator and a slash-free piece appends exactly that piece. */
  lemma {:induction false} SplitAppend(x: string, t: string)
    requires '/' !in t
    ensures Split(x + "/" + t) == Split(x) + [t]
    decreases |t|
  {
    if t == [] {
      assert (x + "/" + t)[..|x + "/" + t| - 1] == x;
    } else {
      var t' := t[..|t| - 1];
      assert t == t' + [t[|t| - 1]];
      assert (x + "/" + t)[..|x + "/" + t| - 1] == x + "/" + t';
      SplitAppend(x, t');
      var init := Split(x + "/" + t');
      assert init[..|init| - 1] == Split(x);
    }
  }

  /** Joining the pieces of a split gives back the string. */
  lemma {:induction false} JoinSplit(s: string)
    ensures Join(Split(s)) == s
    decreases |s|
  {
    if s != [] {
      var s' := s[..|s| - 1];
      var c := s[|s| - 1];
      assert s == s' + [c];
      JoinSplit(s');
      var init := Split(s');
      var parts := Split(s);
      if c == '/' {
        assert parts == init + [""];
        assert parts[..|parts| - 1] == init;
      } else {
        assert parts == init[..|init| - 1] + [init[|init| - 1] + [c]];
        if |init| > 1 {
          assert parts[..|parts| - 1] == init[..|init| - 1];
          assert init[..|init| - 1][..|init| - 2] == init[..|init| - 2];
        }
      }
    }
  }

  /** Splitting a join of slash-free pieces gives back the pieces. */
  lemma {:induction false} SplitJoin(parts: seq<string>)
    requires |parts| >= 1
    requires forall i :: 0 <= i < |parts| ==> '/' !in parts[i]
    ensures Split(Join(parts)) == parts
    decreases |parts|
  {
    if |parts| > 1 {
      var init, last := parts[..|parts| - 1], parts[|parts| - 1];
      assert parts == init + [last];
      assert forall i :: 0 <= i < |init| ==> init[i] == parts[i];
      SplitJoin(init);
      SplitAppend(Join(init), last);
    }
  }

  /** The segment after a final separator is exactly the slash-free tail. */
  lemma LastSegmentAfterSlash(x: string, t: string)
    requires '/' !in t
    ensures LastSegment(x + "/" + t) == t
  {
    SplitAppend(x, t);
  }
}
