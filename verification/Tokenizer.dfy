/**
 The comma-separated name lists of -e and -M: a character loop that collects each token in a 64-byte
 buffer, silently dropping what does not fit, and looks it up in a table of names.
 */
module Tokenizer {
  import opened Splitting
  import opened Wrappers

  datatype Named<T> = Named(name: string, value: T)

  const BUFFER_SIZE: nat := 64

  /** micron::vector as far as parse_event_list uses it. */
  class Vector<T> {
    var items: seq<T>

    constructor ()
      ensures items == []
    {
      items := [];
    }

    method PushBack(x: T)
      modifies this
      ensures items == old(items) + [x]
    {
      items := items + [x];
    }
  }

  // ----- lookup

  /** The first entry of that name. */
  function Lookup<T>(table: seq<Named<T>>, name: string): (r: Option<Named<T>>)
    ensures r.Some? ==> r.value in table && r.value.name == name
    ensures r.None? ==> forall i :: 0 <= i < |table| ==> table[i].name != name
  {
    if table == [] then None
    else if table[0].name == name then Some(table[0])
    else Lookup(table[1..], name)
  }

  method LookupName<T>(table: seq<Named<T>>, name: string) returns (r: Option<Named<T>>)
    ensures r == Lookup(table, name)
  {
    for i := 0 to |table|
      invariant Lookup(table[i..], name) == Lookup(table, name)
    {
      if table[i].name == name { return Some(table[i]); }
    }
    r := None;
  }

  /** Every name fits the buffer with its terminator, is not empty and has no comma. */
  predicate WellFormedTable<T>(table: seq<Named<T>>) {
    forall i :: 0 <= i < |table| ==> 0 < |table[i].name| < BUFFER_SIZE - 1 && Free(table[i].name, ',')
  }

  predicate DistinctNames<T>(table: seq<Named<T>>) {
    forall i, j :: 0 <= i < j < |table| ==> table[i].name != table[j].name
  }

  lemma {:induction false} LookupFindsOwn<T>(table: seq<Named<T>>, k: nat)
    requires DistinctNames(table) && k < |table|
    ensures Lookup(table, table[k].name) == Some(table[k])
    decreases |table|
  {
    if k > 0 {
      LookupFindsOwn(table[1..], k - 1);
    }
  }

  // ----- specification: split at commas, drop empty pieces, look up

  /** The known tokens' entries, in order. */
  function Found<T>(table: seq<Named<T>>, tokens: seq<string>): seq<Named<T>> {
    if tokens == [] then []
    else
      var last := Lookup(table, tokens[|tokens| - 1]);
      Found(table, tokens[..|tokens| - 1])
      + (if tokens[|tokens| - 1] != "" && last.Some? then [last.value] else [])
  }

  predicate AllKnown<T>(table: seq<Named<T>>, tokens: seq<string>) {
    forall i :: 0 <= i < |tokens| ==> tokens[i] == "" || Lookup(table, tokens[i]).Some?
  }

  /** What a token leaves in the buffer: its first 63 characters. */
  function Truncated(token: string): (t: string)
    ensures |t| < BUFFER_SIZE && (t == "" <==> token == "")
  {
    if |token| < BUFFER_SIZE then token else token[..BUFFER_SIZE - 1]
  }

  /** Truncation cannot make an unknown name known, because every known name is shorter than the buffer. */
  lemma TruncationUnobservable<T>(table: seq<Named<T>>, token: string)
    requires WellFormedTable(table)
    ensures Lookup(table, Truncated(token)) == Lookup(table, token)
  {
    if |token| >= BUFFER_SIZE {
      LongNameUnknown(table, Truncated(token));
      LongNameUnknown(table, token);
    }
  }

  lemma LongNameUnknown<T>(table: seq<Named<T>>, name: string)
    requires WellFormedTable(table) && |name| >= BUFFER_SIZE - 1
    ensures Lookup(table, name).None?
  {
  }

  // ----- the loop

  /** buf[..bi] holds the truncated piece under construction. */
  ghost predicate Holds(buf: array<char>, bi: nat, piece: string)
    reads buf
  {
    buf.Length == BUFFER_SIZE && bi < BUFFER_SIZE && buf[..bi] == Truncated(piece)
  }

  method Append(buf: array<char>, bi: nat, c: char, ghost piece: string) returns (next: nat)
    requires Holds(buf, bi, piece)
    modifies buf
    ensures Holds(buf, next, piece + [c])
  {
    next := bi;
    if bi < buf.Length - 1 {
      buf[bi] := c;
      next := bi + 1;
    }
  }

  lemma EmptyHolds(buf: array<char>)
    requires buf.Length == BUFFER_SIZE
    ensures Holds(buf, 0, "")
  {
  }

  lemma NothingYet<T>(table: seq<Named<T>>)
    ensures Split("", ',') == [""] && Closed([""]) == [] && Current([""]) == ""
    ensures Found(table, []) == [] && AllKnown(table, []) && Echoed(table, []) == []
  {
  }

  /** parse_event_list; None stands for a null list. */
  method ParseEventList<T>(table: seq<Named<T>>, csv: Option<string>, out: Vector<Named<T>>) returns (allOk: bool)
    requires WellFormedTable(table)
    modifies out
    ensures csv.None? ==> allOk && out.items == old(out.items)
    ensures csv.Some? ==> allOk == AllKnown(table, Split(csv.value, ','))
    ensures csv.Some? ==> out.items == old(out.items) + Found(table, Split(csv.value, ','))
  {
    allOk := true;
    if csv.None? { return; }
    var s := csv.value;
    var buf := new char[BUFFER_SIZE];
    var bi, p := 0, 0;
    ghost var was := out.items;
    hide Split, Found, AllKnown, Lines, WellFormedTable, Echoed, Holds, Closed, Current, TruncatedAll;
    EmptyHolds(buf);
    NothingYet(table);
    assert s[..0] == "";
    ghost var parts := [""];
    while p < |s|
      invariant p <= |s| && parts == Split(s[..p], ',')
      invariant Holds(buf, bi, Current(parts))
      invariant allOk == AllKnown(table, Closed(parts))
      invariant out.items == was + Found(table, Closed(parts))
    {
      NextPiece(s, p);
      if s[p] == ',' {
        bi, allOk := EndToken(table, buf, bi, allOk, out, parts, was);
      } else {
        bi := Append(buf, bi, s[p], Current(parts));
      }
      p := p + 1;
      parts := Split(s[..p], ',');
    }
    assert s[..p] == s;
    bi, allOk := EndToken(table, buf, bi, allOk, out, parts, was);
  }

  lemma NextPiece(s: string, p: nat)
    requires p < |s|
    ensures var parts, next := Split(s[..p], ','), Split(s[..p + 1], ',');
            if s[p] == ',' then Closed(next) == parts && Current(next) == ""
            else Closed(next) == Closed(parts) && Current(next) == Current(parts) + [s[p]]
  {
    assert s[..p + 1] == s[..p] + [s[p]];
    SplitStep(s[..p], s[p], ',');
    ExtendEffect(Split(s[..p], ','), s[p], ',');
  }

  /** The body of the loop at a comma or at the end of the text. */
  method EndToken<T>(table: seq<Named<T>>, buf: array<char>, bi: nat, okSoFar: bool, out: Vector<Named<T>>,
                     ghost parts: seq<string>, ghost was: seq<Named<T>>)
    returns (next: nat, allOk: bool)
    requires WellFormedTable(table) && parts != []
    requires Holds(buf, bi, Current(parts))
    requires okSoFar == AllKnown(table, Closed(parts))
    requires out.items == was + Found(table, Closed(parts))
    modifies out
    ensures Holds(buf, next, "")
    ensures allOk == AllKnown(table, parts)
    ensures out.items == was + Found(table, parts)
  {
    next, allOk := 0, okSoFar;
    ghost var piece := Current(parts);
    if bi > 0 {
      TruncationUnobservable(table, piece);
      var e := LookupName(table, buf[..bi]);
      if e.Some? {
        out.PushBack(e.value);
      } else {
        allOk := false;
      }
    }
  }

  // ----- consequences for the specification

  lemma AllKnownConcat<T>(table: seq<Named<T>>, a: seq<string>, b: seq<string>)
    ensures AllKnown(table, a + b) <==> AllKnown(table, a) && AllKnown(table, b)
  {
    hide Lookup;
    assert forall i :: 0 <= i < |b| ==> (a + b)[|a| + i] == b[i];
    assert forall i :: 0 <= i < |a| ==> (a + b)[i] == a[i];
  }

  lemma {:induction false} FoundConcat<T>(table: seq<Named<T>>, a: seq<string>, b: seq<string>)
    ensures Found(table, a + b) == Found(table, a) + Found(table, b)
    ensures AllKnown(table, a + b) <==> AllKnown(table, a) && AllKnown(table, b)
    decreases |b|
  {
    hide Lookup;
    AllKnownConcat(table, a, b);
    if b == [] {
      assert a + b == a;
    } else {
      var before, t := b[..|b| - 1], b[|b| - 1];
      FoundConcat(table, a, before);
      var last := if t != "" && Lookup(table, t).Some? then [Lookup(table, t).value] else [];
      assert (a + b)[..|a + b| - 1] == a + before && (a + b)[|a + b| - 1] == t;
      assert Found(table, a + b) == Found(table, a + before) + last;
      assert Found(table, b) == Found(table, before) + last;
    }
  }

  /** Parsing two lists joined by a comma is parsing the first and then the second. */
  lemma ParseComposes<T>(table: seq<Named<T>>, a: string, b: string)
    ensures Found(table, Split(a + "," + b, ',')) == Found(table, Split(a, ',')) + Found(table, Split(b, ','))
    ensures AllKnown(table, Split(a + "," + b, ','))
       <==> AllKnown(table, Split(a, ',')) && AllKnown(table, Split(b, ','))
  {
    SplitConcat(a, b, ',');
    FoundConcat(table, Split(a, ','), Split(b, ','));
  }

  predicate Listed<T>(table: seq<Named<T>>, name: string) {
    exists k :: 0 <= k < |table| && table[k].name == name
  }

  /** A name is looked up with success exactly if some entry has it. */
  lemma {:induction false} LookupIffListed<T>(table: seq<Named<T>>, name: string)
    ensures Lookup(table, name).Some? <==> Listed(table, name)
    ensures Lookup(table, name).Some? ==> Lookup(table, name).value.name == name && Lookup(table, name).value in table
    decreases |table|
  {
    if table != [] && table[0].name != name {
      LookupIffListed(table[1..], name);
      if Listed(table, name) {
        var k :| 0 <= k < |table| && table[k].name == name;
        assert table[1..][k - 1] == table[k];
      }
    }
  }

  /** A list is known exactly if every non-empty piece is the name of some entry. */
  lemma AllKnownIff<T>(table: seq<Named<T>>, tokens: seq<string>)
    ensures AllKnown(table, tokens) <==> forall i :: 0 <= i < |tokens| ==> tokens[i] == "" || Listed(table, tokens[i])
  {
    hide Lookup, Listed;
    forall i | 0 <= i < |tokens|
      ensures Lookup(table, tokens[i]).Some? <==> Listed(table, tokens[i])
    {
      LookupIffListed(table, tokens[i]);
    }
  }

  /** A piece that no entry has as its name makes the parse fail, and adds nothing to what is found. */
  lemma UnknownPieceFails<T>(table: seq<Named<T>>, a: string, bad: string, b: string)
    requires bad != "" && Free(bad, ',') && !Listed(table, bad)
    ensures !AllKnown(table, Split(a + "," + (bad + "," + b), ','))
    ensures Found(table, Split(a + "," + (bad + "," + b), ','))
         == Found(table, Split(a, ',')) + Found(table, Split(b, ','))
  {
    hide Lookup, Listed;
    LookupIffListed(table, bad);
    SplitFree(bad, ',');
    OnePiece(table, bad);
    ParseComposes(table, a, bad + "," + b);
    ParseComposes(table, bad, b);
    assert [] + Found(table, Split(b, ',')) == Found(table, Split(b, ','));
  }

  lemma OnePiece<T>(table: seq<Named<T>>, bad: string)
    requires bad != "" && Lookup(table, bad).None?
    ensures !AllKnown(table, [bad]) && Found(table, [bad]) == []
  {
    assert [bad][0] == bad && [bad][..0] == [] && Found(table, []) == [];
  }

  function Names<T>(entries: seq<Named<T>>): (names: seq<string>)
    ensures |names| == |entries| && forall i :: 0 <= i < |names| ==> names[i] == entries[i].name
  {
    seq(|entries|, i requires 0 <= i < |entries| => entries[i].name)
  }

  lemma ListedNameFound<T>(table: seq<Named<T>>, e: Named<T>)
    requires WellFormedTable(table) && DistinctNames(table) && e in table
    ensures e.name != "" && Free(e.name, ',') && Lookup(table, e.name) == Some(e)
  {
    var k :| 0 <= k < |table| && table[k] == e;
    LookupFindsOwn(table, k);
  }

  lemma {:induction false} FoundNames<T>(table: seq<Named<T>>, entries: seq<Named<T>>)
    requires forall i :: 0 <= i < |entries| ==>
               entries[i].name != "" && Lookup(table, entries[i].name) == Some(entries[i])
    ensures Found(table, Names(entries)) == entries
    decreases |entries|
  {
    hide Lookup;
    if entries != [] {
      var before, e := entries[..|entries| - 1], entries[|entries| - 1];
      FoundNames(table, before);
      assert Names(entries)[..|entries| - 1] == Names(before);
      assert entries == before + [e];
    }
  }

  /** Joining the names of any listed entries, repeats and order included, parses back to exactly those entries. */
  lemma JoinedNamesParseBack<T>(table: seq<Named<T>>, entries: seq<Named<T>>)
    requires WellFormedTable(table) && DistinctNames(table) && entries != []
    requires forall i :: 0 <= i < |entries| ==> entries[i] in table
    ensures var parts := Split(Join(Names(entries), ','), ',');
            Found(table, parts) == entries && AllKnown(table, parts)
  {
    hide Lookup;
    forall i | 0 <= i < |entries|
      ensures entries[i].name != "" && Free(entries[i].name, ',') && Lookup(table, entries[i].name) == Some(entries[i])
    {
      ListedNameFound(table, entries[i]);
    }
    SplitJoin(Names(entries), ',');
    FoundNames(table, entries);
  }

  // ----- emit_metrics: the same loop, but an unknown token is echoed from the buffer

  datatype Line<T> = Value(entry: Named<T>) | NotKnown(text: string)

  function LineFor<T>(table: seq<Named<T>>, token: string): Line<T> {
    var r := Lookup(table, token);
    if r.Some? then Value(r.value) else NotKnown(token)
  }

  /** One line for each non-empty token. */
  function Lines<T>(table: seq<Named<T>>, tokens: seq<string>): seq<Line<T>> {
    if tokens == [] then []
    else
      Lines(table, tokens[..|tokens| - 1])
      + (if tokens[|tokens| - 1] != "" then [LineFor(table, tokens[|tokens| - 1])] else [])
  }

  function TruncatedAll(tokens: seq<string>): (t: seq<string>)
    ensures |t| == |tokens|
  {
    seq(|tokens|, i requires 0 <= i < |tokens| => Truncated(tokens[i]))
  }

  /** The lines emit_metrics writes: those of the tokens as the buffer holds them. */
  function Echoed<T>(table: seq<Named<T>>, tokens: seq<string>): seq<Line<T>> {
    Lines(table, TruncatedAll(tokens))
  }

  method EmitMetrics<T>(table: seq<Named<T>>, csv: Option<string>, out: Vector<Line<T>>)
    modifies out
    ensures csv.None? ==> out.items == old(out.items)
    ensures csv.Some? ==> out.items == old(out.items) + Echoed(table, Split(csv.value, ','))
  {
    if csv.None? { return; }
    var s := csv.value;
    var buf := new char[BUFFER_SIZE];
    var bi, p := 0, 0;
    ghost var was := out.items;
    hide Split, Found, AllKnown, Lines, WellFormedTable, Echoed, Holds, Closed, Current, TruncatedAll;
    EmptyHolds(buf);
    NothingYet(table);
    assert s[..0] == "";
    ghost var parts := [""];
    while p < |s|
      invariant p <= |s| && parts == Split(s[..p], ',')
      invariant Holds(buf, bi, Current(parts))
      invariant out.items == was + Echoed(table, Closed(parts))
    {
      NextPiece(s, p);
      if s[p] == ',' {
        bi := EmitToken(table, buf, bi, out, parts, was);
      } else {
        bi := Append(buf, bi, s[p], Current(parts));
      }
      p := p + 1;
      parts := Split(s[..p], ',');
    }
    assert s[..p] == s;
    bi := EmitToken(table, buf, bi, out, parts, was);
  }

  method EmitToken<T>(table: seq<Named<T>>, buf: array<char>, bi: nat, out: Vector<Line<T>>,
                      ghost parts: seq<string>, ghost was: seq<Line<T>>)
    returns (next: nat)
    requires parts != [] && Holds(buf, bi, Current(parts))
    requires out.items == was + Echoed(table, Closed(parts))
    modifies out
    ensures Holds(buf, next, "")
    ensures out.items == was + Echoed(table, parts)
  {
    next := 0;
    assert TruncatedAll(parts)[..|parts| - 1] == TruncatedAll(Closed(parts));
    if bi > 0 {
      var m := LookupName(table, buf[..bi]);
      out.PushBack(if m.Some? then Value(m.value) else NotKnown(buf[..bi]));
    }
  }

  /** Every unknown token fits the buffer. */
  predicate UnknownFit<T>(table: seq<Named<T>>, tokens: seq<string>) {
    forall i :: 0 <= i < |tokens| ==> |tokens[i]| < BUFFER_SIZE || Lookup(table, tokens[i]).Some?
  }

  /** Here truncation shows exactly when some unknown token is longer than 63 characters. */
  lemma {:induction false} MetricsFaithfulIff<T>(table: seq<Named<T>>, tokens: seq<string>)
    requires WellFormedTable(table)
    ensures Echoed(table, tokens) == Lines(table, tokens)
       <==> UnknownFit(table, tokens)
    decreases |tokens|
  {
    if tokens != [] {
      var before, t := tokens[..|tokens| - 1], tokens[|tokens| - 1];
      MetricsFaithfulIff(table, before);
      TruncationUnobservable(table, t);
      assert TruncatedAll(tokens)[..|tokens| - 1] == TruncatedAll(before);
      LinesLength(table, before);
      var a, b := Echoed(table, before), Lines(table, before);
      var x, y := LineFor(table, Truncated(t)), LineFor(table, t);
      assert Echoed(table, tokens) == a + (if t != "" then [x] else []);
      assert Lines(table, tokens) == b + (if t != "" then [y] else []);
      assert x == y <==> |t| < BUFFER_SIZE || Lookup(table, t).Some?;
      assert UnknownFit(table, tokens) <==> UnknownFit(table, before) && (|t| < BUFFER_SIZE || Lookup(table, t).Some?);
      assert a + [] == a && b + [] == b;
      AppendInjective(a, x, b, y);
    }
  }

  /** The lines of two lists of tokens are those of the first and then those of the second. */
  lemma {:induction false} LinesConcat<T>(table: seq<Named<T>>, a: seq<string>, b: seq<string>)
    ensures Lines(table, a + b) == Lines(table, a) + Lines(table, b)
    decreases |b|
  {
    hide LineFor;
    if b == [] {
      assert a + b == a;
    } else {
      var before, t := b[..|b| - 1], b[|b| - 1];
      LinesConcat(table, a, before);
      var last := if t != "" then [LineFor(table, t)] else [];
      assert (a + b)[..|a + b| - 1] == a + before && (a + b)[|a + b| - 1] == t;
      assert Lines(table, a + b) == Lines(table, a + before) + last;
      assert Lines(table, b) == Lines(table, before) + last;
    }
  }

  /** A token that names an entry is shown with that entry, any other one as unknown, and an empty one not at all. */
  lemma LinesOfOne<T>(table: seq<Named<T>>, token: string)
    ensures token == "" ==> Lines(table, [token]) == []
    ensures token != "" && !Listed(table, token) ==> Lines(table, [token]) == [NotKnown(token)]
    ensures token != "" && Listed(table, token) ==>
              exists e :: e in table && e.name == token && Lines(table, [token]) == [Value(e)]
  {
    hide Listed, Lookup;
    LookupIffListed(table, token);
    assert [token][..0] == [] && Lines(table, []) == [];
  }

  /** For instance: of an unknown token of 64 characters the last one is not echoed. */
  lemma LongTokenIsCut<T>(table: seq<Named<T>>)
    requires WellFormedTable(table)
    ensures var token := seq(64, _ => 'z');
            Lines(table, [token]) == [NotKnown(token)] && Echoed(table, [token]) == [NotKnown(token[..63])]
  {
    hide Lookup;
    var token := seq(64, _ => 'z');
    LongNameUnknown(table, token);
    LongNameUnknown(table, Truncated(token));
    assert [token][..0] == [] && TruncatedAll([token]) == [Truncated(token)] && [Truncated(token)][..0] == [];
  }

  lemma AppendInjective<T>(a: seq<T>, x: T, b: seq<T>, y: T)
    requires |a| == |b|
    ensures a + [x] == b + [y] <==> a == b && x == y
  {
    if a + [x] == b + [y] {
      assert a == (a + [x])[..|a|] == b;
      assert (a + [x])[|a|] == (b + [y])[|b|];
    }
  }

  lemma {:induction false} LinesLength<T>(table: seq<Named<T>>, tokens: seq<string>)
    ensures |Echoed(table, tokens)| == |Lines(table, tokens)|
    decreases |tokens|
  {
    if tokens != [] {
      LinesLength(table, tokens[..|tokens| - 1]);
      assert TruncatedAll(tokens)[..|tokens| - 1] == TruncatedAll(tokens[..|tokens| - 1]);
    }
  }
}
