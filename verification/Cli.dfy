/** The command line of bbench: parse_argv walks argv once and updates the options in place. */
module Cli {
  import opened Decimal
  import opened Wrappers

  const U32: nat := 0x1_0000_0000

  datatype Opts = Opts(
    nRuns: nat, detail: nat, delayMs: nat, timeoutMs: nat,
    inherit: bool, scale: bool, pinned: bool, exclKernel: bool, exclUser: bool,
    verbose: bool, table: bool, topdownOnly: bool,
    csvSep: char,
    eventCsv: Option<string>, pre: Option<string>, post: Option<string>,
    outputFile: Option<string>, metricsCsv: Option<string>,
    paths: seq<string>)

  const DEFAULTS := Opts(
    1, 1, 0, 0,
    true, true, false, true, false,
    false, false, false,
    '\0',
    None, None, None,
    None, None,
    [])

  // ----- the vocabulary

  datatype Toggle =
    | Detail1 | Detail2 | Detail3 | Table | Verbose | TopdownOnly
    | NoInherit | NoScale | AllUser | AllKernel | Pinned

  datatype Key = Runs | Delay | Timeout | Events | Pre | Post | Separator | Output | Metrics

  datatype Word = Switch(t: Toggle) | Takes(k: Key) | Help | Unknown | Path

  function Classify(a: string): Word {
    if a == "-n" || a == "-r" then Takes(Runs)
    else if a == "-d" then Switch(Detail1)
    else if a == "-dd" then Switch(Detail2)
    else if a == "-ddd" then Switch(Detail3)
    else if a == "-e" then Takes(Events)
    else if a == "-D" then Takes(Delay)
    else if a == "--timeout" then Takes(Timeout)
    else if a == "--pre" then Takes(Pre)
    else if a == "--post" then Takes(Post)
    else if a == "--table" then Switch(Table)
    else if a == "-x" then Takes(Separator)
    else if a == "-o" then Takes(Output)
    else if a == "-v" || a == "--verbose" then Switch(Verbose)
    else if a == "-M" then Takes(Metrics)
    else if a == "--topdown" then Switch(TopdownOnly)
    else if a == "--no-inherit" then Switch(NoInherit)
    else if a == "--no-scale" then Switch(NoScale)
    else if a == "--all-user" then Switch(AllUser)
    else if a == "--all-kernel" then Switch(AllKernel)
    else if a == "--pinned" then Switch(Pinned)
    else if a == "-h" || a == "--help" then Help
    else if At(a, 0) == '-' && At(a, 1) != '\0' then Unknown
    else Path
  }

  function Toggled(t: Toggle, o: Opts): Opts {
    match t
    case Detail1 => o.(detail := 1)
    case Detail2 => o.(detail := 2)
    case Detail3 => o.(detail := 3)
    case Table => o.(table := true)
    case Verbose => o.(verbose := true)
    case TopdownOnly => o.(topdownOnly := true)
    case NoInherit => o.(inherit := false)
    case NoScale => o.(scale := false)
    case AllUser => o.(exclKernel := true, exclUser := false)
    case AllKernel => o.(exclKernel := false, exclUser := true)
    case Pinned => o.(pinned := true)
  }

  /** The options after key k with value v, or None if the value is refused. Times are cut to 32 bits. */
  function SetValue(k: Key, v: string, o: Opts): Option<Opts> {
    match k
    case Runs =>
      var n := ParseIntOf(v);
      if n.Some? && n.value >= 1 then Some(o.(nRuns := n.value)) else None
    case Delay =>
      var n := ParseIntOf(v);
      if n.Some? && n.value >= 0 then Some(o.(delayMs := n.value % U32)) else None
    case Timeout =>
      var n := ParseIntOf(v);
      if n.Some? && n.value >= 0 then Some(o.(timeoutMs := n.value % U32)) else None
    case Events => Some(o.(eventCsv := Some(v)))
    case Pre => Some(o.(pre := Some(v)))
    case Post => Some(o.(post := Some(v)))
    case Separator => Some(o.(csvSep := if v != "" then v[0] else ','))
    case Output => Some(o.(outputFile := Some(v)))
    case Metrics => Some(o.(metricsCsv := Some(v)))
  }

  datatype Outcome = Outcome(ok: bool, opts: Opts)

  /** What the loop makes of the remaining arguments. */
  function Parse(args: seq<string>, o: Opts): Outcome {
    if args == [] then Outcome(true, o)
    else
      match Classify(args[0])
      case Switch(t) => Parse(args[1..], Toggled(t, o))
      case Takes(k) =>
        if |args| == 1 then Outcome(false, o)
        else
          var r := SetValue(k, args[1], o);
          if r.Some? then Parse(args[2..], r.value) else Outcome(false, o)
      case Path => Parse(args[1..], o.(paths := o.paths + [args[0]]))
      case Help | Unknown => Outcome(false, o)
  }

  // ----- the loop

  class CliOpts {
    var o: Opts

    constructor ()
      ensures o == DEFAULTS
    {
      o := DEFAULTS;
    }
  }

  method NeedInt(argv: seq<string>, i: nat) returns (r: Option<int>, next: nat)
    requires i < |argv|
    ensures i <= next < |argv| && (r.Some? ==> next == i + 1)
    ensures r == if i + 1 < |argv| then ParseIntOf(argv[i + 1]) else None
  {
    if i + 1 >= |argv| { return None, i; }
    next := i + 1;
    r := ParseInt(argv[next]);
  }

  /** One round of the loop: ok says whether to go on, at position next. */
  method ParseOne(argv: seq<string>, i: nat, out: CliOpts) returns (ok: bool, next: nat)
    requires i < |argv|
    modifies out
    ensures ok ==> i < next <= |argv| && Parse(argv[i..], old(out.o)) == Parse(argv[next..], out.o)
    ensures !ok ==> Parse(argv[i..], old(out.o)) == Outcome(false, out.o)
  {
    hide ParseIntOf;
    var a := argv[i];
    assert argv[i..][0] == a;
    ok, next := true, i + 1;
    match Classify(a) {
      case Switch(t) =>
        out.o := Toggled(t, out.o);
        assert argv[i..][1..] == argv[next..];
      case Takes(k) =>
        ok, next := ParseValue(argv, i, k, out);
        assert ok ==> argv[i..][2..] == argv[next..];
      case Path =>
        out.o := out.o.(paths := out.o.paths + [a]);
        assert argv[i..][1..] == argv[next..];
      case Help | Unknown =>
        ok := false;
    }
  }

  method ParseValue(argv: seq<string>, i: nat, k: Key, out: CliOpts) returns (ok: bool, next: nat)
    requires i < |argv|
    modifies out
    ensures ok ==> i + 1 < |argv| && next == i + 2 && Some(out.o) == SetValue(k, argv[i + 1], old(out.o))
    ensures !ok ==> out.o == old(out.o) && (i + 1 < |argv| ==> SetValue(k, argv[i + 1], out.o) == None)
  {
    hide ParseIntOf;
    ok, next := false, i;
    if k.Runs? || k.Delay? || k.Timeout? {
      var n, j := NeedInt(argv, i);
      if n.None? || n.value < (if k.Runs? then 1 else 0) { return; }
      if k.Runs? {
        out.o := out.o.(nRuns := n.value);
      } else if k.Delay? {
        out.o := out.o.(delayMs := n.value % U32);
      } else {
        out.o := out.o.(timeoutMs := n.value % U32);
      }
    } else {
      if i + 1 >= |argv| { return; }
      var v := argv[i + 1];
      if k.Events? {
        out.o := out.o.(eventCsv := Some(v));
      } else if k.Pre? {
        out.o := out.o.(pre := Some(v));
      } else if k.Post? {
        out.o := out.o.(post := Some(v));
      } else if k.Separator? {
        out.o := out.o.(csvSep := if v != "" then v[0] else ',');
      } else if k.Output? {
        out.o := out.o.(outputFile := Some(v));
      } else {
        out.o := out.o.(metricsCsv := Some(v));
      }
    }
    ok, next := true, i + 2;
  }

  /** parse_argv: argv[0] is the program; at least one path must remain. */
  method ParseArgv(argv: seq<string>, out: CliOpts) returns (ok: bool)
    requires argv != []
    modifies out
    ensures var r := Parse(argv[1..], old(out.o));
            out.o == r.opts && (ok <==> r.ok && r.opts.paths != [])
  {
    var i := 1;
    while i < |argv|
      invariant 1 <= i <= |argv|
      invariant Parse(argv[i..], out.o) == Parse(argv[1..], old(out.o))
    {
      var go, next := ParseOne(argv, i, out);
      if !go { return false; }
      i := next;
    }
    ok := out.o.paths != [];
  }

  // ----- invariants and composition

  predicate Inv(o: Opts) {
    o.exclUser == !o.exclKernel && o.nRuns >= 1 && 1 <= o.detail <= 3 && o.delayMs < U32 && o.timeoutMs < U32
  }

  lemma ChangesKeepInv(t: Toggle, k: Key, v: string, o: Opts)
    requires Inv(o)
    ensures Inv(Toggled(t, o))
    ensures SetValue(k, v, o).Some? ==> Inv(SetValue(k, v, o).value)
  {
    hide ParseIntOf;
  }

  lemma PathKeepsInv(p: string, o: Opts)
    requires Inv(o)
    ensures Inv(o.(paths := o.paths + [p]))
  {
  }

  /** Whatever the arguments, and also when they are refused, the options stay consistent. */
  lemma {:induction false} ParseKeepsInv(args: seq<string>, o: Opts)
    requires Inv(o)
    ensures Inv(Parse(args, o).opts)
    decreases |args|
  {
    hide Classify, SetValue, Toggled, Inv;
    if args != [] {
      match Classify(args[0])
      case Switch(t) =>
        ChangesKeepInv(t, Runs, "", o);
        ParseKeepsInv(args[1..], Toggled(t, o));
      case Takes(k) =>
        if |args| > 1 && SetValue(k, args[1], o).Some? {
          ChangesKeepInv(Table, k, args[1], o);
          ParseKeepsInv(args[2..], SetValue(k, args[1], o).value);
        }
      case Path =>
        PathKeepsInv(args[0], o);
        ParseKeepsInv(args[1..], o.(paths := o.paths + [args[0]]));
      case _ =>
    }
  }

  /** If the first arguments are complete option groups, parsing more continues from the options they leave. */
  lemma {:induction false} ParseComposes(a: seq<string>, b: seq<string>, o: Opts)
    requires Parse(a, o).ok
    ensures Parse(a + b, o) == Parse(b, Parse(a, o).opts)
    decreases |a|
  {
    hide Classify, SetValue, Toggled;
    if a == [] {
      assert a + b == b;
    } else {
      assert (a + b)[0] == a[0] && (a + b)[1..] == a[1..] + b;
      match Classify(a[0])
      case Switch(t) => ParseComposes(a[1..], b, Toggled(t, o));
      case Takes(k) =>
        assert (a + b)[1] == a[1] && (a + b)[2..] == a[2..] + b;
        ParseComposes(a[2..], b, SetValue(k, a[1], o).value);
      case Path => ParseComposes(a[1..], b, o.(paths := o.paths + [a[0]]));
      case _ =>
    }
  }

  // ----- option groups

  /** One complete option: a switch, a key with its value, or a path. */
  datatype Group = Plain(t: Toggle) | With(k: Key, v: string) | Binary(path: string)

  /** The canonical spelling of each option. */
  function ToggleText(t: Toggle): string {
    match t
    case Detail1 => "-d"
    case Detail2 => "-dd"
    case Detail3 => "-ddd"
    case Table => "--table"
    case Verbose => "-v"
    case TopdownOnly => "--topdown"
    case NoInherit => "--no-inherit"
    case NoScale => "--no-scale"
    case AllUser => "--all-user"
    case AllKernel => "--all-kernel"
    case Pinned => "--pinned"
  }

  function KeyText(k: Key): string {
    match k
    case Runs => "-n"
    case Delay => "-D"
    case Timeout => "--timeout"
    case Events => "-e"
    case Pre => "--pre"
    case Post => "--post"
    case Separator => "-x"
    case Output => "-o"
    case Metrics => "-M"
  }

  function Words(g: Group): seq<string> {
    match g
    case Plain(t) => [ToggleText(t)]
    case With(k, v) => [KeyText(k), v]
    case Binary(p) => [p]
  }

  /** The arguments ws spell the group g, in the canonical or any other spelling. */
  predicate Spells(ws: seq<string>, g: Group) {
    match g
    case Plain(t) => |ws| == 1 && Classify(ws[0]) == Switch(t)
    case With(k, v) => |ws| == 2 && Classify(ws[0]) == Takes(k) && ws[1] == v
    case Binary(p) => ws == [p]
  }

  /** The arguments ws spell the groups gs, one after the other. */
  predicate SpellAll(ws: seq<string>, gs: seq<Group>) {
    if gs == [] then ws == []
    else
      var n := if gs[0].With? then 2 else 1;
      n <= |ws| && Spells(ws[..n], gs[0]) && SpellAll(ws[n..], gs[1..])
  }

  function AllWords(gs: seq<Group>): seq<string> {
    if gs == [] then [] else Words(gs[0]) + AllWords(gs[1..])
  }

  /** A path is anything that does not look like an option; "-" alone is a path. */
  predicate PathShaped(p: string) {
    !(At(p, 0) == '-' && At(p, 1) != '\0')
  }

  predicate Accepted(g: Group, o: Opts) {
    match g
    case Plain(_) => true
    case With(k, v) => SetValue(k, v, o).Some?
    case Binary(p) => PathShaped(p)
  }

  function Apply(g: Group, o: Opts): Opts
    requires Accepted(g, o)
  {
    match g
    case Plain(t) => Toggled(t, o)
    case With(k, v) => SetValue(k, v, o).value
    case Binary(p) => o.(paths := o.paths + [p])
  }

  predicate AllAccepted(gs: seq<Group>, o: Opts) {
    gs == [] || (Accepted(gs[0], o) && AllAccepted(gs[1..], Apply(gs[0], o)))
  }

  function ApplyAll(gs: seq<Group>, o: Opts): Opts
    requires AllAccepted(gs, o)
  {
    if gs == [] then o else ApplyAll(gs[1..], Apply(gs[0], o))
  }

  lemma ClassifyToggle(t: Toggle)
    ensures Classify(ToggleText(t)) == Switch(t)
  {
    var s := ToggleText(t);
    assert s[1] == if |s| < 5 then (if t.Verbose? then 'v' else 'd') else '-';
    if |s| >= 5 {
      assert s[2] == (match t case Table => 't' case TopdownOnly => 't' case NoInherit => 'n' case NoScale => 'n'
                              case AllUser => 'a' case AllKernel => 'a' case _ => 'p');
      assert s[3] == (match t case Table => 'a' case TopdownOnly => 'o' case NoInherit => 'o' case NoScale => 'o'
                              case AllUser => 'l' case AllKernel => 'l' case _ => 'i');
    }
  }

  lemma ClassifyKey(k: Key)
    ensures Classify(KeyText(k)) == Takes(k)
  {
    var s := KeyText(k);
    assert s[1] == (match k case Runs => 'n' case Delay => 'D' case Events => 'e' case Separator => 'x'
                            case Output => 'o' case Metrics => 'M' case _ => '-');
    if |s| >= 5 {
      assert s[2] == if k.Timeout? then 't' else 'p';
      assert s[3] == (match k case Timeout => 'i' case Pre => 'r' case _ => 'o');
    }
  }

  lemma ClassifyPath(p: string)
    ensures Classify(p) == Path <==> PathShaped(p)
  {
    var a, b := At(p, 0), At(p, 1);
  }

  lemma WordsSpell(g: Group)
    ensures Spells(Words(g), g)
  {
    hide Classify, ToggleText, KeyText;
    match g
    case Plain(t) => ClassifyToggle(t);
    case With(k, v) => ClassifyKey(k);
    case Binary(p) =>
  }

  lemma {:induction false} AllWordsSpell(gs: seq<Group>)
    ensures SpellAll(AllWords(gs), gs)
    decreases |gs|
  {
    hide Words, Spells;
    if gs != [] {
      var n := if gs[0].With? then 2 else 1;
      WordsSpell(gs[0]);
      AllWordsSpell(gs[1..]);
      WordCount(gs[0]);
      assert AllWords(gs)[..n] == Words(gs[0]) && AllWords(gs)[n..] == AllWords(gs[1..]);
    }
  }

  lemma WordCount(g: Group)
    ensures |Words(g)| == if g.With? then 2 else 1
  {
  }

  /** -r is -n and --verbose is -v; there are no other spellings. */
  predicate OtherWords(ws: seq<string>, g: Group) {
    match g
    case Plain(t) => t == Verbose && ws == ["--verbose"]
    case With(k, v) => k == Runs && ws == ["-r", v]
    case Binary(_) => false
  }

  lemma SpellingsAre(ws: seq<string>, g: Group)
    ensures Spells(ws, g) <==> ws == Words(g) || OtherWords(ws, g)
  {
    WordsSpell(g);
    VerboseSpelling();
    match g
    case Plain(t) =>
      if Spells(ws, g) {
        SwitchTexts(ws[0], t);
      }
    case With(k, v) =>
      if Spells(ws, g) {
        KeyTexts(ws[0], k);
      }
    case Binary(p) =>
  }

  lemma SwitchTexts(a: string, t: Toggle)
    requires Classify(a) == Switch(t)
    ensures a == ToggleText(t) || (t == Verbose && a == "--verbose")
  {
  }

  lemma KeyTexts(a: string, k: Key)
    requires Classify(a) == Takes(k)
    ensures a == KeyText(k) || (k == Runs && a == "-r")
  {
  }

  lemma VerboseSpelling()
    ensures Classify("--verbose") == Switch(Verbose) && Classify("-r") == Takes(Runs)
  {
    var s := "--verbose";
    assert s[1] == '-' && s[2] == 'v';
  }

  // ----- parsing is applying complete groups

  lemma ParseGroup(ws: seq<string>, g: Group, rest: seq<string>, o: Opts)
    requires Spells(ws, g) && Accepted(g, o)
    ensures Parse(ws + rest, o) == Parse(rest, Apply(g, o))
  {
    hide Classify, SetValue, Toggled, PathShaped;
    var args := ws + rest;
    assert args[|ws|..] == rest;
    match g
    case Plain(t) =>
    case With(k, v) => assert args[1] == v;
    case Binary(p) => ClassifyPath(p);
  }

  /** Any spelling of accepted groups parses to the groups applied in order. */
  lemma {:induction false} ParseSpelled(ws: seq<string>, gs: seq<Group>, o: Opts)
    requires SpellAll(ws, gs) && AllAccepted(gs, o)
    ensures Parse(ws, o) == Outcome(true, ApplyAll(gs, o))
    decreases |gs|
  {
    hide Apply, Accepted, Spells;
    if gs != [] {
      var n := if gs[0].With? then 2 else 1;
      ParseGroup(ws[..n], gs[0], ws[n..], o);
      assert ws[..n] + ws[n..] == ws;
      ParseSpelled(ws[n..], gs[1..], Apply(gs[0], o));
    }
  }

  /** The groups the arguments are read as, as far as they are complete. */
  function GroupsOf(args: seq<string>): seq<Group> {
    if args == [] then []
    else
      match Classify(args[0])
      case Switch(t) => [Plain(t)] + GroupsOf(args[1..])
      case Takes(k) => if |args| == 1 then [] else [With(k, args[1])] + GroupsOf(args[2..])
      case Path => [Binary(args[0])] + GroupsOf(args[1..])
      case Help | Unknown => []
  }

  /** Conversely, whatever parses is a spelling of accepted groups: parsing succeeds exactly on those. */
  lemma {:induction false} ParsedIsSpelled(args: seq<string>, o: Opts)
    requires Parse(args, o).ok
    ensures SpellAll(args, GroupsOf(args)) && AllAccepted(GroupsOf(args), o)
    decreases |args|
  {
    hide Classify, SetValue, Toggled, PathShaped;
    if args != [] {
      match Classify(args[0])
      case Switch(t) =>
        ParsedIsSpelled(args[1..], Toggled(t, o));
        SpellFront(args, 1, Plain(t), GroupsOf(args[1..]), o);
      case Takes(k) =>
        ParsedIsSpelled(args[2..], SetValue(k, args[1], o).value);
        SpellFront(args, 2, With(k, args[1]), GroupsOf(args[2..]), o);
      case Path =>
        ClassifyPath(args[0]);
        ParsedIsSpelled(args[1..], o.(paths := o.paths + [args[0]]));
        SpellFront(args, 1, Binary(args[0]), GroupsOf(args[1..]), o);
      case _ =>
    }
  }

  lemma SpellFront(args: seq<string>, n: nat, g: Group, gs: seq<Group>, o: Opts)
    requires n == (if g.With? then 2 else 1) && n <= |args| && Spells(args[..n], g) && SpellAll(args[n..], gs)
    requires Accepted(g, o) && AllAccepted(gs, Apply(g, o))
    ensures SpellAll(args, [g] + gs) && AllAccepted([g] + gs, o)
  {
    hide Spells, Accepted, Apply;
    assert ([g] + gs)[1..] == gs;
  }

  // ----- what each option does, in the words of the command line

  lemma SwitchDoes(t: Toggle, rest: seq<string>, o: Opts)
    ensures Parse([ToggleText(t)] + rest, o) == Parse(rest, Toggled(t, o))
  {
    hide Classify, ToggleText, Toggled, Parse;
    ClassifyToggle(t);
    ParseGroup([ToggleText(t)], Plain(t), rest, o);
  }

  lemma KeyDoes(k: Key, v: string, rest: seq<string>, o: Opts)
    requires SetValue(k, v, o).Some?
    ensures Parse([KeyText(k), v] + rest, o) == Parse(rest, SetValue(k, v, o).value)
  {
    hide Classify, KeyText, SetValue, Parse;
    ClassifyKey(k);
    ParseGroup([KeyText(k), v], With(k, v), rest, o);
  }

  lemma DisplaySwitches(rest: seq<string>, o: Opts)
    ensures Parse(["-d"] + rest, o) == Parse(rest, o.(detail := 1))
    ensures Parse(["-dd"] + rest, o) == Parse(rest, o.(detail := 2))
    ensures Parse(["-ddd"] + rest, o) == Parse(rest, o.(detail := 3))
    ensures Parse(["--table"] + rest, o) == Parse(rest, o.(table := true))
    ensures Parse(["-v"] + rest, o) == Parse(rest, o.(verbose := true))
    ensures Parse(["--topdown"] + rest, o) == Parse(rest, o.(topdownOnly := true))
  {
    hide Parse;
    SwitchDoes(Detail1, rest, o);
    SwitchDoes(Detail2, rest, o);
    SwitchDoes(Detail3, rest, o);
    SwitchDoes(Table, rest, o);
    SwitchDoes(Verbose, rest, o);
    SwitchDoes(TopdownOnly, rest, o);
  }

  lemma CountingSwitches(rest: seq<string>, o: Opts)
    ensures Parse(["--no-inherit"] + rest, o) == Parse(rest, o.(inherit := false))
    ensures Parse(["--no-scale"] + rest, o) == Parse(rest, o.(scale := false))
    ensures Parse(["--all-user"] + rest, o) == Parse(rest, o.(exclKernel := true, exclUser := false))
    ensures Parse(["--all-kernel"] + rest, o) == Parse(rest, o.(exclKernel := false, exclUser := true))
    ensures Parse(["--pinned"] + rest, o) == Parse(rest, o.(pinned := true))
  {
    hide Parse;
    SwitchDoes(NoInherit, rest, o);
    SwitchDoes(NoScale, rest, o);
    SwitchDoes(AllUser, rest, o);
    SwitchDoes(AllKernel, rest, o);
    SwitchDoes(Pinned, rest, o);
  }

  lemma TextOptions(v: string, rest: seq<string>, o: Opts)
    ensures Parse(["-e", v] + rest, o) == Parse(rest, o.(eventCsv := Some(v)))
    ensures Parse(["--pre", v] + rest, o) == Parse(rest, o.(pre := Some(v)))
    ensures Parse(["--post", v] + rest, o) == Parse(rest, o.(post := Some(v)))
    ensures Parse(["-o", v] + rest, o) == Parse(rest, o.(outputFile := Some(v)))
    ensures Parse(["-M", v] + rest, o) == Parse(rest, o.(metricsCsv := Some(v)))
    ensures Parse(["-x", v] + rest, o) == Parse(rest, o.(csvSep := if v == "" then ',' else v[0]))
  {
    hide Parse, ParseIntOf;
    KeyDoes(Events, v, rest, o);
    KeyDoes(Pre, v, rest, o);
    KeyDoes(Post, v, rest, o);
    KeyDoes(Output, v, rest, o);
    KeyDoes(Metrics, v, rest, o);
    KeyDoes(Separator, v, rest, o);
  }

  /** Numbers in range are stored, and any text after the digits is ignored. */
  lemma NumberOptions(v: string, n: int, rest: seq<string>, o: Opts)
    requires ParseIntOf(v) == Some(n)
    ensures n >= 1 ==> Parse(["-n", v] + rest, o) == Parse(rest, o.(nRuns := n))
    ensures n >= 0 ==> Parse(["-D", v] + rest, o) == Parse(rest, o.(delayMs := n % 0x1_0000_0000))
    ensures n >= 0 ==> Parse(["--timeout", v] + rest, o) == Parse(rest, o.(timeoutMs := n % 0x1_0000_0000))
  {
    hide Parse, ParseIntOf;
    if n >= 1 {
      KeyDoes(Runs, v, rest, o);
    }
    if n >= 0 {
      KeyDoes(Delay, v, rest, o);
      KeyDoes(Timeout, v, rest, o);
    }
  }

  /** A number that is none or out of range ends the parse with a refusal, and leaves the options as they were. */
  lemma BadNumberRefused(w: string, v: string, rest: seq<string>, o: Opts)
    requires w == "-n" || w == "-r" || w == "-D" || w == "--timeout"
    requires var n := ParseIntOf(v); n.None? || n.value < (if w == "-n" || w == "-r" then 1 else 0)
    ensures Parse([w, v] + rest, o) == Outcome(false, o)
  {
    hide Classify, ParseIntOf;
    NumberWords();
    var args := [w, v] + rest;
    assert args[0] == w && args[1] == v;
  }

  /** A value that is missing is refused as well. */
  lemma MissingValueRefused(k: Key, o: Opts)
    ensures Parse([KeyText(k)], o) == Outcome(false, o)
  {
    hide Classify, KeyText;
    ClassifyKey(k);
  }

  lemma NumberWords()
    ensures Classify("-n") == Takes(Runs) && Classify("-r") == Takes(Runs)
    ensures Classify("-D") == Takes(Delay) && Classify("--timeout") == Takes(Timeout)
  {
    hide Classify;
    ClassifyKey(Runs);
    ClassifyKey(Delay);
    ClassifyKey(Timeout);
    VerboseSpelling();
  }

  /** What does not start with a blank, a sign or a digit is no number; 0 and negative numbers are their texts. */
  lemma NoNumber(v: string)
    requires v == "" || (!IsDigit(v[0]) && v[0] != ' ' && v[0] != '-' && v[0] != '+')
    ensures ParseIntOf(v) == None
  {
  }

  /** -n 0, and a negative time, are refused, whatever follows. */
  lemma OutOfRangeRefused(n: int, rest: seq<string>, o: Opts)
    ensures n < 1 ==> Parse(["-n", IntText(n)] + rest, o) == Outcome(false, o)
    ensures n < 0 ==> Parse(["-D", IntText(n)] + rest, o) == Outcome(false, o)
    ensures n < 0 ==> Parse(["--timeout", IntText(n)] + rest, o) == Outcome(false, o)
  {
    hide Parse, ParseIntOf, IntText;
    PrintThenParse(n, "");
    assert IntText(n) + "" == IntText(n);
    if n < 1 {
      BadNumberRefused("-n", IntText(n), rest, o);
    }
    if n < 0 {
      BadNumberRefused("-D", IntText(n), rest, o);
      BadNumberRefused("--timeout", IntText(n), rest, o);
    }
  }

  lemma {:induction false} PathsAppended(paths: seq<string>, o: Opts)
    requires forall i :: 0 <= i < |paths| ==> PathShaped(paths[i])
    ensures Parse(paths, o) == Outcome(true, o.(paths := o.paths + paths))
    decreases |paths|
  {
    hide Classify, PathShaped;
    if paths == [] {
      assert o.paths + paths == o.paths;
    } else {
      ClassifyPath(paths[0]);
      PathsAppended(paths[1..], o.(paths := o.paths + [paths[0]]));
      assert o.paths + paths == o.paths + [paths[0]] + paths[1..];
    }
  }

  /** A command line of paths only: one run, detail 1, no delay or timeout, user mode, inherited and scaled counts. */
  lemma DefaultsApply(paths: seq<string>)
    requires forall i :: 0 <= i < |paths| ==> PathShaped(paths[i])
    ensures var r := Parse(paths, DEFAULTS);
            && r.ok && r.opts.nRuns == 1 && r.opts.detail == 1 && r.opts.delayMs == 0 && r.opts.timeoutMs == 0
            && r.opts.inherit && r.opts.scale && !r.opts.pinned && r.opts.exclKernel && !r.opts.exclUser
            && !r.opts.verbose && !r.opts.table && !r.opts.topdownOnly && r.opts.csvSep == '\0'
            && r.opts.eventCsv == None && r.opts.pre == None && r.opts.post == None
            && r.opts.outputFile == None && r.opts.metricsCsv == None && r.opts.paths == paths
  {
    hide Parse, PathShaped;
    PathsAppended(paths, DEFAULTS);
    assert [] + paths == paths;
  }

  /** What a group writes. */
  datatype Field =
    | FDetail | FTable | FVerbose | FTopdown | FInherit | FScale | FMode | FPinned
    | FKey(k: Key) | FPaths

  function Writes(g: Group): Field {
    match g
    case With(k, _) => FKey(k)
    case Binary(_) => FPaths
    case Plain(t) =>
      match t
      case Detail1 | Detail2 | Detail3 => FDetail
      case Table => FTable
      case Verbose => FVerbose
      case TopdownOnly => FTopdown
      case NoInherit => FInherit
      case NoScale => FScale
      case AllUser | AllKernel => FMode
      case Pinned => FPinned
  }

  lemma AcceptanceIsLocal(g: Group, o: Opts, p: Opts)
    ensures Accepted(g, o) == Accepted(g, p)
  {
    hide ParseIntOf;
  }

  /** The options a and b agree on field f. */
  predicate Same(f: Field, a: Opts, b: Opts) {
    match f
    case FDetail => a.detail == b.detail
    case FTable => a.table == b.table
    case FVerbose => a.verbose == b.verbose
    case FTopdown => a.topdownOnly == b.topdownOnly
    case FInherit => a.inherit == b.inherit
    case FScale => a.scale == b.scale
    case FMode => a.exclKernel == b.exclKernel && a.exclUser == b.exclUser
    case FPinned => a.pinned == b.pinned
    case FPaths => a.paths == b.paths
    case FKey(k) =>
      match k
      case Runs => a.nRuns == b.nRuns
      case Delay => a.delayMs == b.delayMs
      case Timeout => a.timeoutMs == b.timeoutMs
      case Events => a.eventCsv == b.eventCsv
      case Pre => a.pre == b.pre
      case Post => a.post == b.post
      case Separator => a.csvSep == b.csvSep
      case Output => a.outputFile == b.outputFile
      case Metrics => a.metricsCsv == b.metricsCsv
  }

  lemma SameSwitches(a: Opts, b: Opts)
    requires forall f: Field :: Same(f, a, b)
    ensures a.detail == b.detail && a.table == b.table && a.verbose == b.verbose && a.topdownOnly == b.topdownOnly
    ensures a.inherit == b.inherit && a.scale == b.scale && a.pinned == b.pinned && a.paths == b.paths
    ensures a.exclKernel == b.exclKernel && a.exclUser == b.exclUser
  {
    assert Same(FDetail, a, b) && Same(FTable, a, b) && Same(FVerbose, a, b) && Same(FTopdown, a, b)
        && Same(FInherit, a, b) && Same(FScale, a, b) && Same(FMode, a, b) && Same(FPinned, a, b) && Same(FPaths, a, b);
  }

  lemma SameValues(a: Opts, b: Opts)
    requires forall f: Field :: Same(f, a, b)
    ensures a.nRuns == b.nRuns && a.delayMs == b.delayMs && a.timeoutMs == b.timeoutMs && a.csvSep == b.csvSep
    ensures a.eventCsv == b.eventCsv && a.pre == b.pre && a.post == b.post
    ensures a.outputFile == b.outputFile && a.metricsCsv == b.metricsCsv
  {
    assert Same(FKey(Runs), a, b) && Same(FKey(Delay), a, b) && Same(FKey(Timeout), a, b)
        && Same(FKey(Events), a, b) && Same(FKey(Pre), a, b) && Same(FKey(Post), a, b)
        && Same(FKey(Separator), a, b) && Same(FKey(Output), a, b) && Same(FKey(Metrics), a, b);
  }

  lemma SameEverywhere(a: Opts, b: Opts)
    requires forall f: Field :: Same(f, a, b)
    ensures a == b
  {
    hide Same;
    SameSwitches(a, b);
    SameValues(a, b);
  }

  lemma ToggleKeepsValues(t: Toggle, o: Opts)
    ensures var p := Toggled(t, o);
            && p.nRuns == o.nRuns && p.delayMs == o.delayMs && p.timeoutMs == o.timeoutMs && p.csvSep == o.csvSep
            && p.eventCsv == o.eventCsv && p.pre == o.pre && p.post == o.post
            && p.outputFile == o.outputFile && p.metricsCsv == o.metricsCsv && p.paths == o.paths
  {
    match t
    case Detail1 =>
    case Detail2 =>
    case Detail3 =>
    case Table =>
    case Verbose =>
    case TopdownOnly =>
    case NoInherit =>
    case NoScale =>
    case AllUser =>
    case AllKernel =>
    case Pinned =>
  }

  lemma ToggleKeepsOthers(t: Toggle, o: Opts)
    ensures var p := Toggled(t, o);
            && (t.Detail1? || t.Detail2? || t.Detail3? || p.detail == o.detail)
            && (t.Table? || p.table == o.table)
            && (t.Verbose? || p.verbose == o.verbose)
            && (t.TopdownOnly? || p.topdownOnly == o.topdownOnly)
  {
    match t
    case Detail1 =>
    case Detail2 =>
    case Detail3 =>
    case Table =>
    case Verbose =>
    case TopdownOnly =>
    case NoInherit =>
    case NoScale =>
    case AllUser =>
    case AllKernel =>
    case Pinned =>
  }

  lemma ToggleKeepsModes(t: Toggle, o: Opts)
    ensures var p := Toggled(t, o);
            && (t.NoInherit? || p.inherit == o.inherit)
            && (t.NoScale? || p.scale == o.scale)
            && (t.AllUser? || t.AllKernel? || (p.exclKernel == o.exclKernel && p.exclUser == o.exclUser))
            && (t.Pinned? || p.pinned == o.pinned)
  {
    match t
    case Detail1 =>
    case Detail2 =>
    case Detail3 =>
    case Table =>
    case Verbose =>
    case TopdownOnly =>
    case NoInherit =>
    case NoScale =>
    case AllUser =>
    case AllKernel =>
    case Pinned =>
  }

  lemma ToggleFrame(t: Toggle, o: Opts, f: Field)
    requires f != Writes(Plain(t))
    ensures Same(f, Toggled(t, o), o)
  {
    hide Toggled;
    ToggleKeepsValues(t, o);
    ToggleKeepsOthers(t, o);
    ToggleKeepsModes(t, o);
  }

  lemma KeyFrame(k: Key, v: string, o: Opts, f: Field)
    requires f != FKey(k) && SetValue(k, v, o).Some?
    ensures Same(f, SetValue(k, v, o).value, o)
  {
    hide ParseIntOf;
  }

  /** A group leaves every other field alone. */
  lemma GroupFrame(g: Group, o: Opts, f: Field)
    requires Accepted(g, o) && f != Writes(g)
    ensures Same(f, Apply(g, o), o)
  {
    hide Same, Toggled, SetValue;
    match g
    case Plain(t) => ToggleFrame(t, o, f);
    case With(k, v) => KeyFrame(k, v, o, f);
    case Binary(p) => PathFrame(p, o, f);
  }

  lemma PathFrame(p: string, o: Opts, f: Field)
    requires f != FPaths
    ensures Same(f, o.(paths := o.paths + [p]), o)
  {
  }

  lemma ToggleLocal(t: Toggle, a: Opts, b: Opts)
    ensures Same(Writes(Plain(t)), Toggled(t, a), Toggled(t, b))
  {
  }

  lemma KeyLocal(k: Key, v: string, a: Opts, b: Opts)
    requires SetValue(k, v, a).Some? && SetValue(k, v, b).Some?
    ensures Same(FKey(k), SetValue(k, v, a).value, SetValue(k, v, b).value)
  {
    hide ParseIntOf;
  }

  /** What a group writes depends at most on the field it writes. */
  lemma GroupLocal(g: Group, a: Opts, b: Opts)
    requires Accepted(g, a) && Accepted(g, b) && Same(Writes(g), a, b)
    ensures Same(Writes(g), Apply(g, a), Apply(g, b))
  {
    hide Toggled, SetValue;
    match g
    case Plain(t) => ToggleLocal(t, a, b);
    case With(k, v) => KeyLocal(k, v, a, b);
    case Binary(p) =>
  }

  lemma SameTransitive(f: Field, a: Opts, b: Opts, c: Opts)
    requires Same(f, a, b) && Same(f, c, b)
    ensures Same(f, a, c)
  {
  }

  lemma SameSymmetric(f: Field, a: Opts, b: Opts)
    requires Same(f, a, b)
    ensures Same(f, b, a)
  {
  }

  lemma CommutesOn(g: Group, h: Group, o: Opts, f: Field)
    requires f != Writes(h) && Writes(g) != Writes(h)
    requires Accepted(g, o) && Accepted(h, o) && Accepted(h, Apply(g, o)) && Accepted(g, Apply(h, o))
    ensures Same(f, Apply(h, Apply(g, o)), Apply(g, Apply(h, o)))
  {
    hide Same, Apply, Accepted, Writes;
    GroupFrame(h, Apply(g, o), f);
    GroupFrame(h, o, f);
    if f == Writes(g) {
      GroupLocal(g, Apply(h, o), o);
      SameTransitive(f, Apply(h, Apply(g, o)), Apply(g, o), Apply(g, Apply(h, o)));
    } else {
      GroupFrame(g, o, f);
      GroupFrame(g, Apply(h, o), f);
      SameChain(f, Apply(h, Apply(g, o)), Apply(g, o), o, Apply(h, o), Apply(g, Apply(h, o)));
    }
  }

  lemma SameChain(f: Field, a: Opts, b: Opts, c: Opts, d: Opts, e: Opts)
    requires Same(f, a, b) && Same(f, b, c) && Same(f, d, c) && Same(f, e, d)
    ensures Same(f, a, e)
  {
  }

  lemma ApplyCommutes(g: Group, h: Group, o: Opts)
    requires Writes(g) != Writes(h)
    requires Accepted(g, o) && Accepted(h, o)
    ensures Accepted(h, Apply(g, o)) && Accepted(g, Apply(h, o))
    ensures Apply(h, Apply(g, o)) == Apply(g, Apply(h, o))
  {
    hide Same, Apply, Accepted, Writes;
    AcceptanceIsLocal(h, o, Apply(g, o));
    AcceptanceIsLocal(g, o, Apply(h, o));
    var a, b := Apply(h, Apply(g, o)), Apply(g, Apply(h, o));
    forall f: Field
      ensures Same(f, a, b)
    {
      if f != Writes(h) {
        CommutesOn(g, h, o, f);
      } else {
        CommutesOn(h, g, o, f);
        SameSymmetric(f, b, a);
      }
    }
    SameEverywhere(a, b);
  }

  /** Adjacent groups that write different fields, however spelled, can be exchanged anywhere in the command line. */
  lemma AdjacentGroupsCommute(
      before: seq<string>, ws: seq<string>, g: Group, us: seq<string>, h: Group, after: seq<string>, o: Opts)
    requires Parse(before, o).ok && Writes(g) != Writes(h)
    requires Spells(ws, g) && Spells(us, h) && Accepted(g, o) && Accepted(h, o)
    ensures Parse(before + ws + us + after, o) == Parse(before + us + ws + after, o)
  {
    hide Spells, Accepted, Apply, Writes;
    var p := Parse(before, o).opts;
    AcceptanceIsLocal(g, o, p);
    AcceptanceIsLocal(h, o, p);
    ApplyCommutes(g, h, p);
    assert before + ws + us + after == before + (ws + (us + after));
    assert before + us + ws + after == before + (us + (ws + after));
    ParseComposes(before, ws + (us + after), o);
    ParseComposes(before, us + (ws + after), o);
    ParseGroup(ws, g, us + after, p);
    ParseGroup(us, h, ws + after, p);
    ParseGroup(us, h, after, Apply(g, p));
    ParseGroup(ws, g, after, Apply(h, p));
  }

  // ----- rendering options and reading them back

  function When(b: bool, g: Group): seq<Group> {
    if b then [g] else []
  }

  function WhenGiven(k: Key, v: Option<string>): seq<Group> {
    if v.Some? then [With(k, v.value)] else []
  }

  function Numbers(o: Opts): seq<Group> {
    [With(Runs, IntText(o.nRuns)), With(Delay, IntText(o.delayMs)), With(Timeout, IntText(o.timeoutMs)),
     Plain(if o.detail == 1 then Detail1 else if o.detail == 2 then Detail2 else Detail3),
     Plain(if o.exclKernel then AllUser else AllKernel)]
  }

  function Switches(o: Opts): seq<Group> {
    When(!o.inherit, Plain(NoInherit)) + (When(!o.scale, Plain(NoScale)) + (When(o.pinned, Plain(Pinned))
    + (When(o.verbose, Plain(Verbose)) + (When(o.table, Plain(Table)) + When(o.topdownOnly, Plain(TopdownOnly))))))
  }

  function Texts(o: Opts): seq<Group> {
    WhenGiven(Events, o.eventCsv) + (WhenGiven(Pre, o.pre) + (WhenGiven(Post, o.post) + LateTexts(o)))
  }

  function LateTexts(o: Opts): seq<Group> {
    WhenGiven(Output, o.outputFile) + (WhenGiven(Metrics, o.metricsCsv)
    + When(o.csvSep != '\0', With(Separator, [o.csvSep])))
  }

  function Binaries(paths: seq<string>): seq<Group> {
    if paths == [] then [] else [Binary(paths[0])] + Binaries(paths[1..])
  }

  /** A command line for the options o. */
  function Render(o: Opts): seq<string> {
    AllWords(Numbers(o)) + (AllWords(Switches(o)) + (AllWords(Texts(o)) + AllWords(Binaries(o.paths))))
  }

  lemma {:induction false} ApplyConcat(a: seq<Group>, b: seq<Group>, o: Opts)
    requires AllAccepted(a, o) && AllAccepted(b, ApplyAll(a, o))
    ensures AllAccepted(a + b, o) && ApplyAll(a + b, o) == ApplyAll(b, ApplyAll(a, o))
    decreases |a|
  {
    hide Apply, Accepted;
    if a == [] {
      assert a + b == b;
    } else {
      assert (a + b)[0] == a[0] && (a + b)[1..] == a[1..] + b;
      ApplyConcat(a[1..], b, Apply(a[0], o));
    }
  }

  lemma ApplyOne(g: Group, o: Opts)
    requires Accepted(g, o)
    ensures AllAccepted([g], o) && ApplyAll([g], o) == Apply(g, o)
  {
  }

  /** One optional group in front of others. */
  lemma ApplyFront(a: seq<Group>, b: seq<Group>, o: Opts, p: Opts)
    requires a == [] || (|a| == 1 && Accepted(a[0], o))
    requires p == if a == [] then o else Apply(a[0], o)
    requires AllAccepted(b, p)
    ensures AllAccepted(a + b, o) && ApplyAll(a + b, o) == ApplyAll(b, p)
  {
    hide Apply, Accepted;
    if a != [] {
      ApplyOne(a[0], o);
    }
    ApplyConcat(a, b, o);
  }

  predicate Valid(o: Opts) {
    Inv(o) && forall i :: 0 <= i < |o.paths| ==> PathShaped(o.paths[i])
  }

  lemma NumberAccepted(k: Key, n: nat, o: Opts)
    requires k.Runs? || k.Delay? || k.Timeout?
    requires if k.Runs? then n >= 1 else n < U32
    ensures SetValue(k, IntText(n), o) == Some(if k.Runs? then o.(nRuns := n)
                                               else if k.Delay? then o.(delayMs := n) else o.(timeoutMs := n))
  {
    hide ParseIntOf, IntText;
    PrintThenParse(n, "");
    assert IntText(n) + "" == IntText(n);
  }

  lemma NumbersApplied(o: Opts)
    requires Inv(o)
    ensures AllAccepted(Numbers(o), DEFAULTS)
    ensures ApplyAll(Numbers(o), DEFAULTS)
         == DEFAULTS.(nRuns := o.nRuns, delayMs := o.delayMs, timeoutMs := o.timeoutMs, detail := o.detail,
                      exclKernel := o.exclKernel, exclUser := o.exclUser)
  {
    hide IntText, ParseIntOf, SetValue;
    var gs := Numbers(o);
    var p := DEFAULTS.(nRuns := o.nRuns);
    var q := p.(delayMs := o.delayMs);
    var r := q.(timeoutMs := o.timeoutMs);
    NumberAccepted(Runs, o.nRuns, DEFAULTS);
    NumberAccepted(Delay, o.delayMs, p);
    NumberAccepted(Timeout, o.timeoutMs, q);
    var s := Apply(gs[3], r);
    ApplyOne(gs[4], s);
    ApplyFront([gs[3]], [gs[4]], r, s);
    ApplyFront([gs[2]], [gs[3]] + [gs[4]], q, r);
    ApplyFront([gs[1]], [gs[2]] + ([gs[3]] + [gs[4]]), p, q);
    ApplyFront([gs[0]], [gs[1]] + ([gs[2]] + ([gs[3]] + [gs[4]])), DEFAULTS, p);
    assert gs == [gs[0]] + ([gs[1]] + ([gs[2]] + ([gs[3]] + [gs[4]])));
  }

  lemma SwitchFront(b: bool, t: Toggle, rest: seq<Group>, o: Opts)
    requires AllAccepted(rest, SwitchOn(b, t, o))
    ensures AllAccepted(When(b, Plain(t)) + rest, o)
    ensures ApplyAll(When(b, Plain(t)) + rest, o) == ApplyAll(rest, SwitchOn(b, t, o))
  {
    hide Toggled, AllAccepted, ApplyAll;
    ApplyFront(When(b, Plain(t)), rest, o, SwitchOn(b, t, o));
  }

  function SwitchOn(b: bool, t: Toggle, o: Opts): Opts {
    if b then Toggled(t, o) else o
  }

  /** The switches of o turned on in p one after the other. */
  function AllSwitches(o: Opts, p: Opts): Opts {
    SwitchOn(o.topdownOnly, TopdownOnly, SwitchOn(o.table, Table, SwitchOn(o.verbose, Verbose,
      SwitchOn(o.pinned, Pinned, SwitchOn(!o.scale, NoScale, SwitchOn(!o.inherit, NoInherit, p))))))
  }

  lemma SwitchFields(o: Opts, p: Opts)
    requires p.inherit && p.scale && !p.pinned && !p.verbose && !p.table && !p.topdownOnly
    ensures AllSwitches(o, p)
         == p.(inherit := o.inherit, scale := o.scale, pinned := o.pinned, verbose := o.verbose, table := o.table,
               topdownOnly := o.topdownOnly)
  {
  }

  lemma SwitchesApplied(o: Opts, p: Opts)
    ensures AllAccepted(Switches(o), p)
    ensures ApplyAll(Switches(o), p) == AllSwitches(o, p)
  {
    hide AllAccepted, ApplyAll, When, SwitchOn;
    var p1 := SwitchOn(!o.inherit, NoInherit, p);
    var p2 := SwitchOn(!o.scale, NoScale, p1);
    var p3 := SwitchOn(o.pinned, Pinned, p2);
    var p4 := SwitchOn(o.verbose, Verbose, p3);
    var p5 := SwitchOn(o.table, Table, p4);
    var g6 := When(o.topdownOnly, Plain(TopdownOnly));
    var g5 := When(o.table, Plain(Table)) + g6;
    var g4 := When(o.verbose, Plain(Verbose)) + g5;
    var g3 := When(o.pinned, Plain(Pinned)) + g4;
    NothingLeft(SwitchOn(o.topdownOnly, TopdownOnly, p5));
    SwitchFront(o.topdownOnly, TopdownOnly, [], p5);
    assert g6 + [] == g6;
    SwitchFront(o.table, Table, g6, p4);
    SwitchFront(o.verbose, Verbose, g5, p3);
    SwitchFront(o.pinned, Pinned, g4, p2);
    SwitchFront(!o.scale, NoScale, g3, p1);
    SwitchFront(!o.inherit, NoInherit, When(!o.scale, Plain(NoScale)) + g3, p);
  }

  lemma NothingLeft(o: Opts)
    ensures AllAccepted([], o) && ApplyAll([], o) == o
  {
  }

  predicate TextKey(k: Key) {
    k.Events? || k.Pre? || k.Post? || k.Output? || k.Metrics?
  }

  function WithText(k: Key, v: Option<string>, o: Opts): Opts {
    if k.Events? then o.(eventCsv := v)
    else if k.Pre? then o.(pre := v)
    else if k.Post? then o.(post := v)
    else if k.Output? then o.(outputFile := v)
    else o.(metricsCsv := v)
  }

  lemma TextSet(k: Key, v: string, o: Opts)
    requires TextKey(k)
    ensures SetValue(k, v, o) == Some(WithText(k, Some(v), o))
  {
    hide ParseIntOf;
  }

  lemma TextFront(k: Key, v: Option<string>, rest: seq<Group>, o: Opts)
    requires TextKey(k) && Blank(k, o)
    requires AllAccepted(rest, WithText(k, v, o))
    ensures AllAccepted(WhenGiven(k, v) + rest, o)
    ensures ApplyAll(WhenGiven(k, v) + rest, o) == ApplyAll(rest, WithText(k, v, o))
  {
    hide SetValue, AllAccepted, ApplyAll, WithText, Blank;
    if v.Some? {
      TextSet(k, v.value, o);
    } else {
      BlankOverwritten(k, o);
    }
    ApplyFront(WhenGiven(k, v), rest, o, WithText(k, v, o));
  }

  /** The texts of o written into p one after the other, and the separator. */
  function AllTexts(o: Opts, p: Opts): Opts {
    LastTexts(o, WithText(Post, o.post, WithText(Pre, o.pre, WithText(Events, o.eventCsv, p))))
  }

  function LastTexts(o: Opts, p: Opts): Opts {
    WithText(Metrics, o.metricsCsv, WithText(Output, o.outputFile, p)).(csvSep := o.csvSep)
  }

  lemma TextFields(o: Opts, p: Opts)
    ensures AllTexts(o, p)
         == p.(eventCsv := o.eventCsv, pre := o.pre, post := o.post, outputFile := o.outputFile,
               metricsCsv := o.metricsCsv, csvSep := o.csvSep)
  {
  }

  predicate Blank(k: Key, o: Opts) {
    match k
    case Events => o.eventCsv == None
    case Pre => o.pre == None
    case Post => o.post == None
    case Output => o.outputFile == None
    case Metrics => o.metricsCsv == None
    case _ => true
  }

  lemma BlankOverwritten(k: Key, o: Opts)
    requires Blank(k, o) && TextKey(k)
    ensures WithText(k, None, o) == o
  {
  }

  predicate NoTexts(p: Opts) {
    Blank(Events, p) && Blank(Pre, p) && Blank(Post, p) && Blank(Output, p) && Blank(Metrics, p)
  }

  lemma TextsApplied(o: Opts, p: Opts)
    requires NoTexts(p) && p.csvSep == '\0'
    ensures AllAccepted(Texts(o), p)
    ensures ApplyAll(Texts(o), p) == AllTexts(o, p)
  {
    hide AllAccepted, ApplyAll, SetValue, WhenGiven, When, WithText, Blank, LateTexts, LastTexts;
    var p1 := WithText(Events, o.eventCsv, p);
    var p2 := WithText(Pre, o.pre, p1);
    var p3 := WithText(Post, o.post, p2);
    var gs := LateTexts(o);
    BlankAfter(o, p);
    SeparatorKept(Events, o.eventCsv, p);
    SeparatorKept(Pre, o.pre, p1);
    SeparatorKept(Post, o.post, p2);
    LateTextsApplied(o, p3);
    TextFront(Post, o.post, gs, p2);
    TextFront(Pre, o.pre, WhenGiven(Post, o.post) + gs, p1);
    TextFront(Events, o.eventCsv, WhenGiven(Pre, o.pre) + (WhenGiven(Post, o.post) + gs), p);
  }

  lemma LateTextsApplied(o: Opts, p: Opts)
    requires Blank(Output, p) && Blank(Metrics, p) && p.csvSep == '\0'
    ensures AllAccepted(LateTexts(o), p) && ApplyAll(LateTexts(o), p) == LastTexts(o, p)
  {
    hide AllAccepted, ApplyAll, SetValue, WhenGiven, When, WithText, Blank;
    var p4 := WithText(Output, o.outputFile, p);
    var p5 := WithText(Metrics, o.metricsCsv, p4);
    var g6 := When(o.csvSep != '\0', With(Separator, [o.csvSep]));
    LateBlank(o, p);
    SeparatorKept(Output, o.outputFile, p);
    SeparatorKept(Metrics, o.metricsCsv, p4);
    SeparatorApplied(o.csvSep, p5);
    TextFront(Metrics, o.metricsCsv, g6, p4);
    TextFront(Output, o.outputFile, WhenGiven(Metrics, o.metricsCsv) + g6, p);
  }

  lemma LateBlank(o: Opts, p: Opts)
    requires Blank(Metrics, p)
    ensures Blank(Metrics, WithText(Output, o.outputFile, p))
  {
  }

  lemma SeparatorKept(k: Key, v: Option<string>, o: Opts)
    ensures WithText(k, v, o).csvSep == o.csvSep
  {
    match k
    case Events =>
    case Pre =>
    case Post =>
    case Output =>
    case _ =>
  }

  /** Setting one text leaves the later ones blank. */
  lemma BlankAfter(o: Opts, p: Opts)
    requires NoTexts(p)
    ensures var p1 := WithText(Events, o.eventCsv, p);
            var p2 := WithText(Pre, o.pre, p1);
            var p3 := WithText(Post, o.post, p2);
            Blank(Pre, p1) && Blank(Post, p2) && Blank(Output, p3) && Blank(Metrics, p3)
  {
  }

  lemma SeparatorApplied(sep: char, p: Opts)
    requires p.csvSep == '\0'
    ensures var gs := When(sep != '\0', With(Separator, [sep]));
            AllAccepted(gs, p) && ApplyAll(gs, p) == p.(csvSep := sep)
  {
    if sep != '\0' {
      ApplyOne(With(Separator, [sep]), p);
    }
  }

  lemma {:induction false} BinariesApplied(paths: seq<string>, p: Opts)
    requires forall i :: 0 <= i < |paths| ==> PathShaped(paths[i])
    ensures AllAccepted(Binaries(paths), p)
    ensures ApplyAll(Binaries(paths), p) == p.(paths := p.paths + paths)
    decreases |paths|
  {
    hide PathShaped;
    if paths == [] {
      assert p.paths + paths == p.paths;
    } else {
      BinariesApplied(paths[1..], p.(paths := p.paths + [paths[0]]));
      assert p.paths + paths == p.paths + [paths[0]] + paths[1..];
    }
  }

  lemma ParseWords(gs: seq<Group>, o: Opts)
    requires AllAccepted(gs, o)
    ensures Parse(AllWords(gs), o) == Outcome(true, ApplyAll(gs, o))
  {
    AllWordsSpell(gs);
    ParseSpelled(AllWords(gs), gs, o);
  }

  /** Rendering any consistent options and parsing them from the defaults gives them back. */
  lemma RenderThenParse(o: Opts)
    requires Valid(o)
    ensures Parse(Render(o), DEFAULTS) == Outcome(true, o)
  {
    hide Numbers, Switches, Texts, Binaries, ApplyAll, AllAccepted, Parse, AllWords, AllSwitches, AllTexts;
    NumbersApplied(o);
    var p1 := ApplyAll(Numbers(o), DEFAULTS);
    SwitchesApplied(o, p1);
    SwitchFields(o, p1);
    var p2 := ApplyAll(Switches(o), p1);
    TextsApplied(o, p2);
    TextFields(o, p2);
    var p3 := ApplyAll(Texts(o), p2);
    BinariesApplied(o.paths, p3);
    ParseWords(Numbers(o), DEFAULTS);
    ParseWords(Switches(o), p1);
    ParseWords(Texts(o), p2);
    ParseWords(Binaries(o.paths), p3);
    var w3, w2 := AllWords(Binaries(o.paths)), AllWords(Texts(o)) + AllWords(Binaries(o.paths));
    ParseComposes(AllWords(Texts(o)), w3, p2);
    ParseComposes(AllWords(Switches(o)), w2, p1);
    ParseComposes(AllWords(Numbers(o)), AllWords(Switches(o)) + w2, DEFAULTS);
    assert p3.(paths := p3.paths + o.paths) == o;
  }

  /** A time on the command line is kept exactly when it fits 32 bits; otherwise its low bits are. */
  lemma TimeKeptIff(k: Key, ms: nat, o: Opts)
    requires k.Delay? || k.Timeout?
    ensures var r := SetValue(k, IntText(ms), o);
            && r.Some?
            && ((if k.Delay? then r.value.delayMs else r.value.timeoutMs) == ms <==> ms < U32)
  {
    hide ParseIntOf, IntText;
    PrintThenParse(ms, "");
    assert IntText(ms) + "" == IntText(ms);
  }
}
