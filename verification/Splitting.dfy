/** Splitting a text at a separator, joining fields with one, and how the two undo each other. */
module Splitting {

  /** The pieces between separators; a text without separator is one piece, the empty text one empty piece. */
  function Split(s: string, sep: char): (parts: seq<string>)
    ensures |parts| >= 1
  {
    if s == "" then [""] else Extend(Split(s[..|s| - 1], sep), s[|s| - 1], sep)
  }

  /** One more character: a separator starts a new piece, anything else joins the last one. */
  function Extend(parts: seq<string>, c: char, sep: char): (r: seq<string>)
    requires parts != []
    ensures r != []
  {
    if c == sep then parts + [""]
    else parts[..|parts| - 1] + [parts[|parts| - 1] + [c]]
  }

  function Join(fields: seq<string>, sep: char): string
    requires fields != []
  {
    if |fields| == 1 then fields[0]
    else Join(fields[..|fields| - 1], sep) + [sep] + fields[|fields| - 1]
  }

  predicate Free(s: string, sep: char) {
    sep !in s
  }

  predicate AllFree(fields: seq<string>, sep: char) {
    forall i :: 0 <= i < |fields| ==> Free(fields[i], sep)
  }

  lemma ExtendAfter(p: seq<string>, q: seq<string>, c: char, sep: char)
    requires q != []
    ensures Extend(p + q, c, sep) == p + Extend(q, c, sep)
  {
    assert (p + q)[..|p + q| - 1] == p + q[..|q| - 1];
    if c == sep {
      assert p + q + [""] == p + (q + [""]);
    }
  }

  /** The pieces already closed by a separator, and the piece under construction. */
  function Closed(parts: seq<string>): seq<string>
    requires parts != []
  {
    parts[..|parts| - 1]
  }

  function Current(parts: seq<string>): string
    requires parts != []
  {
    parts[|parts| - 1]
  }

  lemma ExtendEffect(parts: seq<string>, c: char, sep: char)
    requires parts != []
    ensures var next := Extend(parts, c, sep);
            if c == sep then Closed(next) == parts && Current(next) == ""
            else Closed(next) == Closed(parts) && Current(next) == Current(parts) + [c]
  {
  }

  lemma SplitStep(s: string, c: char, sep: char)
    ensures Split(s + [c], sep) == Extend(Split(s, sep), c, sep)
  {
    assert (s + [c])[..|s|] == s;
  }

  lemma {:induction false} SplitConcat(a: string, b: string, sep: char)
    ensures Split(a + [sep] + b, sep) == Split(a, sep) + Split(b, sep)
    decreases |b|
  {
    hide Extend;
    if b == "" {
      assert a + [sep] + b == a + [sep];
      SplitStep(a, sep, sep);
      SeparatorStarts(Split(a, sep), sep);
    } else {
      var before, c := b[..|b| - 1], b[|b| - 1];
      SplitConcat(a, before, sep);
      assert a + [sep] + b == (a + [sep] + before) + [c];
      SplitStep(a + [sep] + before, c, sep);
      ExtendAfter(Split(a, sep), Split(before, sep), c, sep);
    }
  }

  lemma SeparatorStarts(parts: seq<string>, sep: char)
    requires parts != []
    ensures Extend(parts, sep, sep) == parts + [""]
  {
  }

  lemma {:induction false} SplitFree(s: string, sep: char)
    requires Free(s, sep)
    ensures Split(s, sep) == [s]
    decreases |s|
  {
    if s != "" {
      SplitFree(s[..|s| - 1], sep);
      assert s == s[..|s| - 1] + [s[|s| - 1]];
    }
  }

  lemma {:induction false} SplitPiecesFree(s: string, sep: char)
    ensures AllFree(Split(s, sep), sep)
    decreases |s|
  {
    if s != "" {
      SplitPiecesFree(s[..|s| - 1], sep);
    }
  }

  lemma {:induction false} SplitJoin(fields: seq<string>, sep: char)
    requires fields != [] && AllFree(fields, sep)
    ensures Split(Join(fields, sep), sep) == fields
    decreases |fields|
  {
    var last := fields[|fields| - 1];
    SplitFree(last, sep);
    if |fields| > 1 {
      var before := fields[..|fields| - 1];
      SplitJoin(before, sep);
      SplitConcat(Join(before, sep), last, sep);
      assert fields == before + [last];
    }
  }

  /** Splitting recovers joined fields exactly when none of them contains the separator. */
  lemma SplitUndoesJoinIff(fields: seq<string>, sep: char)
    requires fields != []
    ensures Split(Join(fields, sep), sep) == fields <==> AllFree(fields, sep)
  {
    SplitPiecesFree(Join(fields, sep), sep);
    if AllFree(fields, sep) {
      SplitJoin(fields, sep);
    }
  }
}
