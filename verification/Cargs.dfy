/**
 The argument parser of cargs: general_parse_np fills a fixed array of slots, putting the value of a key
 back into the key's slot, and the queries and callbacks read the slots.
 */
module Cargs {
  import opened Decimal
  import opened Wrappers

  const FLAG: char := '-'
  const MAX_LENGTH: nat := 32
  const MAX_BUFFER: nat := 127

  datatype Accepts =
    | CZero | CVoid | CPath | CParam | COperand | CKey | CBool | CInt | CLong | CFloat | CDouble | CString

  datatype Packet = Packet(key: string, data: string, kind: Accepts)

  const UNUSED := Packet("", "", CZero)

  function Unused(n: nat): (s: seq<Packet>)
    ensures |s| == n && forall i :: 0 <= i < n ==> s[i] == UNUSED
  {
    seq(n, _ => UNUSED)
  }

  // ----- classification of one argument

  function Dashes(s: string): nat {
    if s == "" then 0 else (if s[0] == FLAG then 1 else 0) + Dashes(s[1..])
  }

  /** flag: two dashes anywhere in the text. */
  predicate IsFlag(s: string) {
    Dashes(s) >= 2
  }

  predicate IsParam(s: string) {
    s != "" && s[0] == FLAG
  }

  /** empty: nothing but dashes. */
  predicate IsEmpty(s: string) {
    forall i :: 0 <= i < |s| ==> s[i] == FLAG
  }

  /** trim: without the leading dashes. */
  function Trim(s: string): (t: string)
    ensures t == "" || t[0] != FLAG
  {
    if s != "" && s[0] == FLAG then Trim(s[1..]) else s
  }

  predicate TooLong(s: string) {
    |s| > MAX_BUFFER
  }

  datatype Word = Key(name: string) | Param(name: string) | Plain | Skipped

  function Classify(s: string): Word {
    if TooLong(s) then Skipped
    else if !IsEmpty(s) && IsFlag(s) then Key(Trim(s))
    else if !IsEmpty(s) && IsParam(s) then Param(Trim(s))
    else Plain
  }

  method Flag(s: string) returns (r: bool)
    ensures r == IsFlag(s)
  {
    var c := 0;
    for i := 0 to |s|
      invariant c + Dashes(s[i..]) == Dashes(s) && c <= 1
    {
      assert s[i..][1..] == s[i + 1..];
      if s[i] == FLAG {
        if c > 0 { return true; }
        c := c + 1;
      }
    }
    r := false;
  }

  method TrimFlag(s: string) returns (t: string)
    ensures t == Trim(s)
  {
    var i := 0;
    while i < |s| && s[i] == FLAG
      invariant i <= |s| && Trim(s[i..]) == Trim(s)
    {
      assert s[i..][1..] == s[i + 1..];
      i := i + 1;
    }
    t := s[i..];
  }

  method OnlyFlags(s: string) returns (r: bool)
    ensures r == IsEmpty(s)
  {
    for i := 0 to |s|
      invariant forall k :: 0 <= k < i ==> s[k] == FLAG
    {
      if s[i] != FLAG { return false; }
    }
    r := true;
  }

  // ----- what the classes are

  lemma {:induction false} DashesConcat(a: string, b: string)
    ensures Dashes(a + b) == Dashes(a) + Dashes(b)
    decreases |a|
  {
    if a == "" {
      assert a + b == b;
    } else {
      DashesConcat(a[1..], b);
      assert (a + b)[1..] == a[1..] + b;
    }
  }

  lemma {:induction false} NoDashes(s: string)
    requires FLAG !in s
    ensures Dashes(s) == 0
    decreases |s|
  {
    if s != "" {
      NoDashes(s[1..]);
    }
  }

  lemma TrimName(name: string)
    requires name != "" && FLAG !in name
    ensures Trim("-" + name) == name && Trim("--" + name) == name && Trim(name) == name
  {
    assert name[0] != FLAG;
    assert ("-" + name)[1..] == name && ("--" + name)[1..] == "-" + name;
  }

  /**
   A name without dashes is an operand or a value, with one dash before it a param, with two a key; up to 127
   characters in all, beyond which an argument is skipped.
   */
  lemma ClassOfName(name: string)
    requires name != "" && FLAG !in name
    ensures Classify(name) == if |name| <= 127 then Plain else Skipped
    ensures Classify("-" + name) == if |name| <= 126 then Param(name) else Skipped
    ensures Classify("--" + name) == if |name| <= 125 then Key(name) else Skipped
  {
    hide Dashes, Trim;
    NoDashes(name);
    TrimName(name);
    OneDash();
    DashesConcat("-", name);
    DashesConcat("--", name);
    assert name[0] != FLAG && ("-" + name)[1] == name[0] && ("--" + name)[2] == name[0];
  }

  lemma OneDash()
    ensures Dashes("-") == 1 && Dashes("--") == 2
  {
    assert "-"[1..] == "" && "--"[1..] == "-";
  }

  /** Two dashes make a key wherever they stand. */
  lemma DashesWithin(a: string, b: string, c: string)
    requires a != "" && FLAG !in a && |a| + |b| + |c| + 2 <= 127
    ensures Classify(a + "-" + b + "-" + c) == Key(a + "-" + b + "-" + c)
  {
    hide Dashes;
    var s := a + "-" + b + "-" + c;
    OneDash();
    DashesConcat(a + "-" + b + "-", c);
    DashesConcat(a + "-" + b, "-");
    DashesConcat(a + "-", b);
    DashesConcat(a, "-");
    assert s[0] == a[0] && a[0] != FLAG;
  }

  // ----- the grammar: the slots of the arguments after argv[0], read from left to right

  /** Whether the arguments start with the value of a preceding key. */
  predicate ValueNext(rest: seq<string>) {
    rest != [] && Classify(rest[0]) == Plain
  }

  function Slots(rest: seq<string>): (slots: seq<Packet>)
    ensures |slots| == |rest|
  {
    if rest == [] then []
    else
      match Classify(rest[0])
      case Skipped => [UNUSED] + Slots(rest[1..])
      case Param(name) => [Packet(name, "", CParam)] + Slots(rest[1..])
      case Plain => [Packet("", rest[0], COperand)] + Slots(rest[1..])
      case Key(name) =>
        if ValueNext(rest[1..]) then [Packet(name, rest[1], CString), UNUSED] + Slots(rest[2..])
        else [Packet(name, "", CKey)] + Slots(rest[1..])
  }

  /** The whole array after parsing; too many arguments, or none, leave it unused. */
  function Parsed(argv: seq<string>): (slots: seq<Packet>)
    ensures |slots| == MAX_LENGTH
  {
    if |argv| > MAX_LENGTH || |argv| == 1 then Unused(MAX_LENGTH)
    else
      var program := if argv == [] then "" else argv[0];
      var rest := if argv == [] then [] else argv[1..];
      [Packet(program, "", CPath)] + Slots(rest) + Unused(MAX_LENGTH - 1 - |rest|)
  }

  // ----- the loop is the grammar

  function SlotOf(a: string): Packet {
    match Classify(a)
    case Skipped => UNUSED
    case Param(name) => Packet(name, "", CParam)
    case Key(name) => Packet(name, "", CKey)
    case Plain => Packet("", a, COperand)
  }

  /** One round of the loop: a plain argument after a key goes back into the key's slot. */
  function Put(slots: seq<Packet>, a: string): seq<Packet> {
    if Classify(a) == Plain && slots != [] && slots[|slots| - 1].kind == CKey then
      slots[..|slots| - 1] + [slots[|slots| - 1].(data := a, kind := CString), UNUSED]
    else slots + [SlotOf(a)]
  }

  lemma PutAfter(p: seq<Packet>, q: seq<Packet>, a: string)
    requires q != [] || p == [] || p[|p| - 1].kind != CKey
    ensures Put(p + q, a) == p + Put(q, a)
  {
    hide Classify, SlotOf;
    if q != [] {
      assert (p + q)[..|p + q| - 1] == p + q[..|q| - 1];
    } else {
      assert p + q == p;
    }
  }

  /** Back-patching argument by argument builds the slots of the grammar. */
  lemma {:induction false} SlotsAppend(p: seq<string>, a: string)
    ensures Slots(p + [a]) == Put(Slots(p), a)
    decreases |p|
  {
    hide Classify;
    if p == [] {
      SlotsOfOne(a);
    } else {
      var t := p[1..];
      assert (p + [a])[0] == p[0] && (p + [a])[1..] == t + [a];
      SlotsAppend(t, a);
      if |p| >= 2 {
        SlotsAppend(p[2..], a);
      }
      match Classify(p[0])
      case Skipped => PutAfter([UNUSED], Slots(t), a);
      case Param(name) => PutAfter([Packet(name, "", CParam)], Slots(t), a);
      case Plain => PutAfter([Packet("", p[0], COperand)], Slots(t), a);
      case Key(name) => KeyAppend(p, a, name);
    }
  }

  lemma SlotsOfOne(a: string)
    ensures Slots([a]) == Put([], a) == [SlotOf(a)]
  {
    hide Classify;
    assert [a][1..] == [] && Slots([]) == [];
  }

  lemma SlotsOfPair(rest: seq<string>, name: string)
    requires rest != [] && Classify(rest[0]) == Key(name) && ValueNext(rest[1..])
    ensures Slots(rest) == [Packet(name, rest[1], CString)] + ([UNUSED] + Slots(rest[2..]))
  {
    hide Classify;
    var s := Slots(rest[2..]);
    assert [Packet(name, rest[1], CString), UNUSED] + s == [Packet(name, rest[1], CString)] + ([UNUSED] + s);
  }

  lemma SlotsOfKey(rest: seq<string>, name: string)
    requires rest != [] && Classify(rest[0]) == Key(name) && !ValueNext(rest[1..])
    ensures Slots(rest) == [Packet(name, "", CKey)] + Slots(rest[1..])
  {
    hide Classify;
  }

  lemma KeyAppend(p: seq<string>, a: string, name: string)
    requires p != [] && Classify(p[0]) == Key(name)
    requires Slots(p[1..] + [a]) == Put(Slots(p[1..]), a)
    requires |p| >= 2 ==> Slots(p[2..] + [a]) == Put(Slots(p[2..]), a)
    ensures Slots(p + [a]) == Put(Slots(p), a)
  {
    hide Classify, Slots, Put;
    var t, q := p[1..], p + [a];
    assert q[0] == p[0] && q[1..] == t + [a];
    if ValueNext(t) {
      assert q[1] == p[1] == t[0] && q[2..] == p[2..] + [a];
      var v := Packet(name, p[1], CString);
      SlotsOfPair(p, name);
      SlotsOfPair(q, name);
      PutAfter([UNUSED], Slots(p[2..]), a);
      PutAfter([v], [UNUSED] + Slots(p[2..]), a);
    } else if t == [] {
      LastKeyAppend(p, a, name);
    } else {
      assert (t + [a])[0] == t[0];
      SlotsOfKey(p, name);
      SlotsOfKey(q, name);
      PutAfter([Packet(name, "", CKey)], Slots(t), a);
    }
  }

  lemma LastKeyAppend(p: seq<string>, a: string, name: string)
    requires |p| == 1 && Classify(p[0]) == Key(name)
    ensures Slots(p + [a]) == Put(Slots(p), a)
  {
    hide Classify;
    SlotsOfOne(a);
    assert (p + [a])[1..] == [a] && (p + [a])[2..] == [] && p[1..] == [];
    assert Slots(p) == [Packet(name, "", CKey)];
  }

  /** A key slot has no data yet. */
  predicate BlankKeys(slots: seq<Packet>) {
    forall i :: 0 <= i < |slots| && slots[i].kind == CKey ==> slots[i].data == ""
  }

  lemma {:induction false} KeySlotsBlank(rest: seq<string>)
    ensures BlankKeys(Slots(rest))
    decreases |rest|
  {
    hide Classify;
    if rest != [] {
      KeySlotsBlank(rest[1..]);
      if |rest| > 1 {
        KeySlotsBlank(rest[2..]);
      }
    }
  }

  class Parser {
    var args: array<Packet>

    constructor (argv: seq<string>)
      ensures fresh(args) && args[..] == Parsed(argv)
    {
      args := new Packet[MAX_LENGTH](_ => UNUSED);
      new;
      assert args[..] == Unused(MAX_LENGTH);
      GeneralParseNp(args, argv);
    }

    /** string query: the data of the first slot with that key, or the empty string. */
    method Query(str: string) returns (data: string)
      ensures data == (var r := Lookup(args[..], str); if r.Some? then r.value.data else "")
    {
      for i := 0 to args.Length
        invariant Lookup(args[..], str) == Lookup(args[i..], str)
      {
        assert args[i..][1..] == args[i + 1..];
        if args[i].key == str { return args[i].data; }
      }
      data := "";
    }

    /** Existence query. */
    method Has(str: string) returns (found: bool)
      ensures found <==> Lookup(args[..], str).Some?
    {
      for i := 0 to args.Length
        invariant Lookup(args[..], str) == Lookup(args[i..], str)
      {
        assert args[i..][1..] == args[i + 1..];
        if args[i].key == str { return true; }
      }
      found := false;
    }

    /**
     callbacks_handler visits slots until an unused one. If there is none the code reads on behind the array;
     here the walk stops there and inside is false.
     */
    method VisitSlots() returns (visited: seq<Packet>, inside: bool)
      ensures |visited| == UsedPrefix(args[..]) && visited == args[..|visited|]
      ensures inside <==> HasUnused(args[..])
    {
      visited := [];
      var c := 0;
      assert args[0..] == args[..];
      while c < args.Length && args[c].kind != CZero
        invariant 0 <= c <= args.Length && visited == args[..c]
        invariant c + UsedPrefix(args[c..]) == UsedPrefix(args[..])
        invariant forall i :: 0 <= i < c ==> args[i].kind != CZero
        decreases args.Length - c
      {
        assert args[c..][1..] == args[c + 1..];
        visited := visited + [args[c]];
        c := c + 1;
      }
      inside := c < args.Length;
      assert inside ==> args[..][c].kind == CZero;
    }
  }

  /** general_parse_np on fresh slots. */
  method GeneralParseNp(args: array<Packet>, argv: seq<string>)
    requires args[..] == Unused(MAX_LENGTH)
    modifies args
    ensures args[..] == Parsed(argv)
  {
    hide Classify, Put;
    assert args.Length == |args[..]| == MAX_LENGTH;
    assert forall k :: 0 <= k < MAX_LENGTH ==> args[k] == args[..][k];
    if |argv| > MAX_LENGTH || |argv| == 1 { return; }
    args[0] := Packet(if argv == [] then "" else argv[0], "", CPath);
    ghost var rest := if argv == [] then [] else argv[1..];
    var i := 1;
    while i < |argv|
      invariant 1 <= i <= |rest| + 1 && args[0] == Packet(if argv == [] then "" else argv[0], "", CPath)
      invariant args[1..i] == Slots(rest[..i - 1])
      invariant forall k :: i <= k < MAX_LENGTH ==> args[k] == UNUSED
    {
      KeySlotsBlank(rest[..i - 1]);
      PutArgument(args, i, argv[i]);
      assert rest[..i] == rest[..i - 1] + [rest[i - 1]];
      SlotsAppend(rest[..i - 1], argv[i]);
      i := i + 1;
    }
    Assemble(args[..], rest);
  }

  lemma Assemble(slots: seq<Packet>, rest: seq<string>)
    requires |slots| == MAX_LENGTH && |rest| < MAX_LENGTH && slots[1..|rest| + 1] == Slots(rest[..|rest|])
    requires forall k :: |rest| < k < MAX_LENGTH ==> slots[k] == UNUSED
    ensures slots == [slots[0]] + Slots(rest) + Unused(MAX_LENGTH - 1 - |rest|)
  {
    hide Slots, Unused;
    assert rest[..|rest|] == rest;
    UnusedFrom(slots, |rest| + 1);
    ThreeParts(slots, |rest| + 1);
  }

  lemma UnusedFrom(slots: seq<Packet>, n: nat)
    requires n <= |slots| && forall k :: n <= k < |slots| ==> slots[k] == UNUSED
    ensures slots[n..] == Unused(|slots| - n)
  {
  }

  lemma ThreeParts(slots: seq<Packet>, n: nat)
    requires 1 <= n <= |slots|
    ensures slots == [slots[0]] + slots[1..n] + slots[n..]
  {
  }

  /** The slots after a round, element by element. */
  lemma PutInto(before: seq<Packet>, after: seq<Packet>, a: string)
    requires |after| == |before| + 1 && forall k :: 0 <= k < |before| - 1 ==> after[k] == before[k]
    requires
      if Classify(a) == Plain && before != [] && before[|before| - 1].kind == CKey then
        after[|before| - 1] == before[|before| - 1].(data := a, kind := CString) && after[|before|] == UNUSED
      else
        (before != [] ==> after[|before| - 1] == before[|before| - 1]) && after[|before|] == SlotOf(a)
    ensures after == Put(before, a)
  {
    hide Classify, SlotOf;
  }

  /** The body of the loop for argument i. */
  method PutArgument(args: array<Packet>, i: nat, a: string)
    requires 1 <= i < args.Length && args[i] == UNUSED && args[0].kind == CPath
    requires BlankKeys(args[1..i])
    modifies args
    ensures args[0] == old(args[0])
    ensures args[1..i + 1] == Put(old(args[1..i]), a)
    ensures forall k :: i < k < args.Length ==> args[k] == old(args[k])
  {
    hide Put;
    ghost var before := args[1..i];
    assert i >= 2 ==> before[i - 2] == args[i - 1];
    PutOne(args, i, a);
    PutInto(before, args[1..i + 1], a);
  }

  method PutOne(args: array<Packet>, i: nat, a: string)
    requires 1 <= i < args.Length && args[i] == UNUSED
    requires args[i - 1].kind == CKey ==> args[i - 1].data == ""
    modifies args
    ensures forall k :: 0 <= k < args.Length && k != i && k != i - 1 ==> args[k] == old(args[k])
    ensures
      if Classify(a) == Plain && old(args[i - 1]).kind == CKey then
        args[i - 1] == old(args[i - 1]).(data := a, kind := CString) && args[i] == UNUSED
      else
        args[i - 1] == old(args[i - 1]) && args[i] == SlotOf(a)
  {
    if |a| > MAX_BUFFER { return; }
    var fl := Flag(a);
    var pm := if fl then false else a != "" && a[0] == FLAG;
    var emp := OnlyFlags(a);
    if !emp && fl {
      var name := TrimFlag(a);
      args[i] := Packet(name, "", CKey);
    } else if !emp && pm {
      var name := TrimFlag(a);
      args[i] := Packet(name, "", CParam);
    } else if args[i - 1].kind == CKey {
      args[i - 1] := args[i - 1].(data := args[i - 1].data + a, kind := CString);
      assert "" + a == a;
    } else {
      args[i] := Packet("", a, COperand);
    }
  }

  // ----- what the slots are good for

  /** A slot that carries a value is followed by an unused one. */
  lemma {:induction false} ValueThenUnused(rest: seq<string>, i: nat)
    requires i < |rest| && Slots(rest)[i].kind == CString
    ensures i + 1 < |rest| && Slots(rest)[i + 1] == UNUSED
    decreases |rest|
  {
    hide Classify;
    if i > 0 {
      if Classify(rest[0]).Key? && ValueNext(rest[1..]) {
        if i > 1 {
          ValueThenUnused(rest[2..], i - 2);
        }
      } else {
        ValueThenUnused(rest[1..], i - 1);
      }
    }
  }

  /** The texts in a slot, in command line order. */
  function Texts(p: Packet): seq<string> {
    match p.kind
    case CString => [p.key, p.data]
    case CKey | CParam | CPath => [p.key]
    case COperand => [p.data]
    case _ => []
  }

  function Unparse(slots: seq<Packet>): seq<string> {
    if slots == [] then [] else Texts(slots[0]) + Unparse(slots[1..])
  }

  /** The arguments that are not too long, keys and params without their leading dashes. */
  function Normal(rest: seq<string>): seq<string> {
    if rest == [] then []
    else
      (match Classify(rest[0])
       case Skipped => []
       case Key(name) => [name]
       case Param(name) => [name]
       case Plain => [rest[0]])
      + Normal(rest[1..])
  }

  lemma UnparseFront(p: Packet, slots: seq<Packet>)
    ensures Unparse([p] + slots) == Texts(p) + Unparse(slots)
  {
    assert ([p] + slots)[1..] == slots;
  }

  /** Every argument lands in exactly one key or data field, and reading the slots gives the arguments back in order. */
  lemma {:induction false} UnparseSlots(rest: seq<string>)
    ensures Unparse(Slots(rest)) == Normal(rest)
    decreases |rest|
  {
    hide Classify;
    if rest != [] {
      UnparseSlots(rest[1..]);
      match Classify(rest[0])
      case Skipped => UnparseFront(UNUSED, Slots(rest[1..]));
      case Param(name) => UnparseFront(Packet(name, "", CParam), Slots(rest[1..]));
      case Plain => UnparseFront(Packet("", rest[0], COperand), Slots(rest[1..]));
      case Key(name) =>
        if ValueNext(rest[1..]) {
          UnparsePair(rest, name);
        } else {
          UnparseFront(Packet(name, "", CKey), Slots(rest[1..]));
        }
    }
  }

  lemma {:induction false} UnparsePair(rest: seq<string>, name: string)
    requires rest != [] && Classify(rest[0]) == Key(name) && ValueNext(rest[1..])
    ensures Unparse(Slots(rest)) == Normal(rest)
    decreases |rest|, 0
  {
    hide Classify;
    hide Slots, Normal;
    var p, more := Packet(name, rest[1], CString), Slots(rest[2..]);
    UnparseSlots(rest[2..]);
    SlotsOfPair(rest, name);
    NormalOfPair(rest, name);
    UnparseFront(p, [UNUSED] + more);
    UnparseFront(UNUSED, more);
  }

  lemma NormalOfPair(rest: seq<string>, name: string)
    requires rest != [] && Classify(rest[0]) == Key(name) && ValueNext(rest[1..])
    ensures Normal(rest) == [name, rest[1]] + Normal(rest[2..])
  {
    hide Classify;
    assert rest[1..][1..] == rest[2..];
    assert Normal(rest) == [name] + Normal(rest[1..]);
  }

  // ----- queries

  function Lookup(slots: seq<Packet>, str: string): Option<Packet> {
    if slots == [] then None
    else if slots[0].key == str then Some(slots[0])
    else Lookup(slots[1..], str)
  }

  /** The value the command line gives the first key or param of that name: what follows it, if plain. */
  function Given(rest: seq<string>, str: string): Option<string> {
    if rest == [] then None
    else
      match Classify(rest[0])
      case Key(name) =>
        if name == str then Some(if ValueNext(rest[1..]) then rest[1] else "") else Given(rest[1..], str)
      case Param(name) => if name == str then Some("") else Given(rest[1..], str)
      case _ => Given(rest[1..], str)
  }

  function DataOf(r: Option<Packet>): Option<string> {
    if r.Some? then Some(r.value.data) else None
  }

  lemma LookupFront(p: Packet, slots: seq<Packet>, str: string)
    ensures Lookup([p] + slots, str) == if p.key == str then Some(p) else Lookup(slots, str)
  {
    assert ([p] + slots)[1..] == slots;
  }

  lemma {:induction false} LookupSlots(rest: seq<string>, tail: seq<Packet>, str: string)
    requires str != "" && forall i :: 0 <= i < |tail| ==> tail[i] == UNUSED
    ensures DataOf(Lookup(Slots(rest) + tail, str)) == Given(rest, str)
    decreases |rest|
  {
    hide Classify, Lookup;
    if rest == [] {
      LookupUnused(tail, str);
      assert Slots(rest) + tail == tail;
    } else if Classify(rest[0]).Key? && ValueNext(rest[1..]) {
      LookupSlots(rest[2..], tail, str);
      LookupPair(rest, tail, str);
    } else {
      var more := Slots(rest[1..]);
      LookupSlots(rest[1..], tail, str);
      assert Slots(rest) + tail == [Slots(rest)[0]] + (more + tail);
      LookupFront(Slots(rest)[0], more + tail, str);
    }
  }

  lemma LookupPair(rest: seq<string>, tail: seq<Packet>, str: string)
    requires str != "" && rest != [] && Classify(rest[0]).Key? && ValueNext(rest[1..])
    requires DataOf(Lookup(Slots(rest[2..]) + tail, str)) == Given(rest[2..], str)
    ensures DataOf(Lookup(Slots(rest) + tail, str)) == Given(rest, str)
  {
    hide Classify, Lookup, Slots;
    var name, after := Classify(rest[0]).name, Slots(rest[2..]);
    var p := Packet(name, rest[1], CString);
    SlotsOfPair(rest, name);
    assert Slots(rest) + tail == [p] + ([UNUSED] + (after + tail));
    LookupFront(p, [UNUSED] + (after + tail), str);
    LookupFront(UNUSED, after + tail, str);
    assert rest[1..][0] == rest[1] && rest[1..][1..] == rest[2..];
  }

  lemma {:induction false} LookupUnused(tail: seq<Packet>, str: string)
    requires str != "" && forall i :: 0 <= i < |tail| ==> tail[i] == UNUSED
    ensures Lookup(tail, str) == None
    decreases |tail|
  {
    if tail != [] {
      LookupUnused(tail[1..], str);
    }
  }

  /** A query for a non-empty name other than the program's returns what the command line gives it. */
  lemma QueryAgrees(argv: seq<string>, str: string)
    requires 2 <= |argv| <= MAX_LENGTH && str != "" && str != argv[0]
    ensures DataOf(Lookup(Parsed(argv), str)) == Given(argv[1..], str)
  {
    hide Classify;
    var p, rest := Packet(argv[0], "", CPath), argv[1..];
    var tail := Unused(MAX_LENGTH - 1 - |rest|);
    LookupSlots(rest, tail, str);
    LookupFront(p, Slots(rest) + tail, str);
    assert Parsed(argv) == [p] + (Slots(rest) + tail);
  }

  datatype Number = Long(n: int) | LongLong(n: int) | Double(r: real) | Flagged(b: bool)

  /** to_number: the text as the slot's kind says. */
  function ToNumber(p: Packet): Number {
    match p.kind
    case CInt => Long(ToI64Of(p.data))
    case CLong => LongLong(ToI64Of(p.data))
    case CFloat | CDouble => Double(FloatValue(ScanFloat(p.data)))
    case _ => Flagged(false)
  }

  /** get(name): the number in the first slot with that key. */
  function GetNumber(slots: seq<Packet>, str: string): Number {
    var r := Lookup(slots, str);
    if r.Some? then ToNumber(r.value) else Flagged(false)
  }

  predicate TextKind(k: Accepts) {
    k == CZero || k == CPath || k == CParam || k == COperand || k == CKey || k == CString
  }

  lemma {:induction false} SlotsHoldText(rest: seq<string>, i: nat)
    requires i < |rest|
    ensures TextKind(Slots(rest)[i].kind)
    decreases |rest|
  {
    hide Classify;
    if i > 0 {
      if Classify(rest[0]).Key? && ValueNext(rest[1..]) {
        if i > 1 {
          SlotsHoldText(rest[2..], i - 2);
        }
      } else {
        SlotsHoldText(rest[1..], i - 1);
      }
    }
  }

  lemma {:induction false} LookupIsSlot(slots: seq<Packet>, str: string)
    ensures Lookup(slots, str).Some? ==> Lookup(slots, str).value in slots
    decreases |slots|
  {
    if slots != [] {
      LookupIsSlot(slots[1..], str);
    }
  }

  /** Parsing without registered parameters never types a slot as a number, so a numeric query yields false, always. */
  lemma NumericQueryIsFalse(argv: seq<string>, str: string)
    ensures GetNumber(Parsed(argv), str) == Flagged(false)
  {
    hide Classify;
    var slots := Parsed(argv);
    LookupIsSlot(slots, str);
    forall i | 0 <= i < |slots|
      ensures TextKind(slots[i].kind)
    {
      if !(|argv| > MAX_LENGTH || |argv| == 1) && 1 <= i < |argv| {
        SlotsHoldText(argv[1..], i - 1);
      }
    }
  }

  // ----- callbacks

  /** The length of the maximal prefix of used slots. */
  function UsedPrefix(slots: seq<Packet>): (n: nat)
    ensures n <= |slots|
  {
    if slots == [] || slots[0].kind == CZero then 0 else 1 + UsedPrefix(slots[1..])
  }

  /** The same read off the arguments: it ends with the first key that has a value, or before a skipped argument. */
  function Dispatched(rest: seq<string>): (n: nat)
    ensures n <= |rest|
  {
    if rest == [] then 0
    else
      match Classify(rest[0])
      case Skipped => 0
      case Key(_) => if ValueNext(rest[1..]) then 1 else 1 + Dispatched(rest[1..])
      case _ => 1 + Dispatched(rest[1..])
  }

  lemma {:induction false} PrefixOfSlots(rest: seq<string>, tail: seq<Packet>)
    requires forall i :: 0 <= i < |tail| ==> tail[i] == UNUSED
    ensures UsedPrefix(Slots(rest) + tail) == Dispatched(rest)
    decreases |rest|
  {
    hide Classify;
    if rest == [] {
      assert Slots(rest) + tail == tail;
    } else {
      PrefixOfSlots(rest[1..], tail);
      var all := Slots(rest) + tail;
      assert all[0] == Slots(rest)[0];
      if Classify(rest[0]).Key? && ValueNext(rest[1..]) {
        assert all[1..][0] == UNUSED;
      } else {
        assert all[1..] == Slots(rest[1..]) + tail;
      }
    }
  }

  /** Callbacks see the program slot and the arguments up to the first key with a value, nothing after it. */
  lemma CallbacksVisit(argv: seq<string>)
    requires 2 <= |argv| <= MAX_LENGTH
    ensures UsedPrefix(Parsed(argv)) == 1 + Dispatched(argv[1..])
  {
    hide Classify;
    var rest := argv[1..];
    var tail := Unused(MAX_LENGTH - 1 - |rest|);
    PrefixOfSlots(rest, tail);
    assert Parsed(argv)[1..] == Slots(rest) + tail;
  }

  /** An argument that leaves an unused slot: one that is too long, or the value of a key. */
  predicate LeavesGap(rest: seq<string>) {
    rest != [] &&
    (Classify(rest[0]) == Skipped || (Classify(rest[0]).Key? && ValueNext(rest[1..])) || LeavesGap(rest[1..]))
  }

  /** Every argument is dispatched exactly if none leaves a gap. */
  lemma {:induction false} AllDispatchedIff(rest: seq<string>)
    ensures Dispatched(rest) == |rest| <==> !LeavesGap(rest)
    decreases |rest|
  {
    hide Classify;
    if rest != [] {
      AllDispatchedIff(rest[1..]);
    }
  }

  /** For instance: of a key with a value and an operand after it, only the key is dispatched. */
  lemma OperandIsNotDispatched()
    ensures Dispatched(["--key", "value", "operand"]) == 1
  {
    hide Dispatched;
    KeyExample();
    ValueEndsDispatch(["--key", "value", "operand"]);
  }

  lemma KeyExample()
    ensures Classify("--key") == Key("key") && Classify("value") == Plain
  {
    hide Classify;
    assert "--" + "key" == "--key";
    ClassOfName("key");
    ClassOfName("value");
  }

  lemma ValueEndsDispatch(rest: seq<string>)
    requires rest != [] && Classify(rest[0]).Key? && ValueNext(rest[1..])
    ensures Dispatched(rest) == 1
  {
    hide Classify;
  }

  predicate HasUnused(slots: seq<Packet>) {
    exists i :: 0 <= i < |slots| && slots[i].kind == CZero
  }

  lemma UnusedConcat(a: seq<Packet>, b: seq<Packet>)
    ensures HasUnused(a + b) <==> HasUnused(a) || HasUnused(b)
  {
    var s := a + b;
    if HasUnused(a) {
      var i :| 0 <= i < |a| && a[i].kind == CZero;
      assert s[i].kind == CZero;
    }
    if HasUnused(b) {
      var i :| 0 <= i < |b| && b[i].kind == CZero;
      assert s[|a| + i].kind == CZero;
    }
    if HasUnused(s) {
      var i :| 0 <= i < |s| && s[i].kind == CZero;
      assert if i < |a| then a[i].kind == CZero else b[i - |a|].kind == CZero;
    }
  }

  lemma {:induction false} GapIff(rest: seq<string>)
    ensures LeavesGap(rest) <==> HasUnused(Slots(rest))
    decreases |rest|
  {
    hide Classify, HasUnused;
    if rest == [] {
      NothingUnused();
    } else {
      GapIff(rest[1..]);
      if Classify(rest[0]).Key? && ValueNext(rest[1..]) {
        SingleUnused(UNUSED);
        var p := Packet(Classify(rest[0]).name, rest[1], CString);
        UnusedConcat([p, UNUSED], Slots(rest[2..]));
        UnusedConcat([p], [UNUSED]);
        assert [p] + [UNUSED] == [p, UNUSED];
      } else {
        SingleUnused(Slots(rest)[0]);
        UnusedConcat([Slots(rest)[0]], Slots(rest[1..]));
        assert Slots(rest) == [Slots(rest)[0]] + Slots(rest[1..]);
      }
    }
  }

  lemma NothingUnused()
    ensures !HasUnused([])
  {
  }

  lemma SingleUnused(p: Packet)
    ensures HasUnused([p]) <==> p.kind == CZero
  {
    assert [p][0] == p;
  }

  lemma UnusedTail(n: nat)
    ensures HasUnused(Unused(n)) <==> n > 0
  {
    var s := Unused(n);
    if n > 0 {
      assert s[0].kind == CZero;
    }
  }

  lemma {:induction false} OperandsLeaveNoGap(rest: seq<string>)
    requires forall i :: 0 <= i < |rest| ==> Classify(rest[i]) == Plain
    ensures !LeavesGap(rest)
    decreases |rest|
  {
    hide Classify;
    if rest != [] {
      OperandsLeaveNoGap(rest[1..]);
    }
  }

  /** For instance: 32 operands fill the array, and the walk leaves it. */
  lemma OperandsFillTheArray()
    ensures !HasUnused(Parsed(seq(MAX_LENGTH, _ => "operand")))
  {
    hide Classify, HasUnused, Parsed, LeavesGap;
    var argv := seq(MAX_LENGTH, _ => "operand");
    OperandExample();
    OperandsLeaveNoGap(argv[1..]);
    WalkStaysInsideIff(argv);
  }

  lemma OperandExample()
    ensures Classify("operand") == Plain
  {
    hide Classify;
    ClassOfName("operand");
  }

  /**
   The walk over the slots finds an unused one, and so stays inside the array, unless exactly 32 arguments
   leave no gap.
   */
  lemma WalkStaysInsideIff(argv: seq<string>)
    requires 2 <= |argv| <= MAX_LENGTH
    ensures HasUnused(Parsed(argv)) <==> |argv| < MAX_LENGTH || LeavesGap(argv[1..])
  {
    hide Classify, HasUnused;
    var p, rest := Packet(argv[0], "", CPath), argv[1..];
    GapIff(rest);
    SingleUnused(p);
    UnusedTail(MAX_LENGTH - 1 - |rest|);
    UnusedConcat([p], Slots(rest));
    UnusedConcat([p] + Slots(rest), Unused(MAX_LENGTH - 1 - |rest|));
  }
}
