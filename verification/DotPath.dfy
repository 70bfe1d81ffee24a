/** Splitting text at a separator, as `split_once` and `split` do. */
module DotPath {
  import opened Wrappers

  /** The text before and after the first `sep`, or `None` where there is none. */
  function SplitOnce(s: string, sep: char): (r: Option<(string, string)>)
    ensures r.None? <==> sep !in s
    ensures r.Some? ==> s == r.value.0 + [sep] + r.value.1 && sep !in r.value.0
  {
    if s == [] then None
    else if s[0] == sep then Some(([], s[1..]))
    else
      match SplitOnce(s[1..], sep)
      case None => None
      case Some((before, after)) => Some(([s[0]] + before, after))
  }

  function Segments(s: string, sep: char): (r: seq<string>)
    ensures |r| > 0
    decreases |s|
  {
    match SplitOnce(s, sep)
    case None => [s]
    case Some((first, rest)) => [first] + Segments(rest, sep)
  }

  function Join(ss: seq<string>, sep: char): string {
    if ss == [] then []
    else if |ss| == 1 then ss[0]
    else ss[0] + [sep] + Join(ss[1..], sep)
  }

  predicate Free(ss: seq<string>, sep: char) {
    forall i | 0 <= i < |ss| :: sep !in ss[i]
  }

  lemma {:induction false} JoinOfSegments(s: string, sep: char)
    ensures Free(Segments(s, sep), sep)
    ensures Join(Segments(s, sep), sep) == s
    decreases |s|
  {
    match SplitOnce(s, sep)
    case None =>
    case Some((first, rest)) =>
      JoinOfSegments(rest, sep);
      assert Segments(s, sep)[1..] == Segments(rest, sep);
  }

  lemma {:induction false} SplitOnceAt(before: string, sep: char, after: string)
    requires sep !in before
    ensures SplitOnce(before + [sep] + after, sep) == Some((before, after))
  {
    var s := before + [sep] + after;
    if before == [] {
      assert s[1..] == after;
    } else {
      assert s[1..] == before[1..] + [sep] + after;
      assert s[0] == before[0] && sep != before[0];
      SplitOnceAt(before[1..], sep, after);
      assert before == [before[0]] + before[1..];
    }
  }

  /** Segments and joining are inverse: a text has one reading as separator-free segments. */
  lemma {:induction false} SegmentsOfJoin(ss: seq<string>, sep: char)
    requires |ss| > 0 && Free(ss, sep)
    ensures Segments(Join(ss, sep), sep) == ss
  {
    if |ss| > 1 {
      SplitOnceAt(ss[0], sep, Join(ss[1..], sep));
      SegmentsOfJoin(ss[1..], sep);
    }
  }

  /** A text starts with `word` and a separator exactly when `word` is a first segment with
      others after it, and the remaining text has those other segments. */
  lemma LeadingSegment(s: string, word: string, sep: char)
    requires sep !in word
    ensures word + [sep] <= s <==> Segments(s, sep)[0] == word && |Segments(s, sep)| > 1
    ensures word + [sep] <= s ==> Segments(s, sep) == [word] + Segments(s[|word| + 1..], sep)
  {
    if word + [sep] <= s {
      assert s == word + [sep] + s[|word| + 1..];
      SplitOnceAt(word, sep, s[|word| + 1..]);
    }
  }
}
