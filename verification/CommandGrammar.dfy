/** The verify-command allowlist (nexus/committee/execution_verifier.py). */
module CommandGrammar {
  import opened Text
  import opened Wrappers

  /** The reasons of `CommandNotAllowed`. */
  datatype Refusal =
    | ShellSyntax | Unparseable | NotArgv | EmptyArgument | DotDotArgument
    | PythonForm | RuffSubcommand | Program
    | PathOutside | FlagNotAllowed | ValueIsAFlag | ValueMissing | ScriptFlag | ScriptOutside | RuffUnavailable

  /** `str.startswith("-")`. */
  predicate Dashed(arg: string) {
    arg != "" && arg[0] == '-'
  }

  // ----- Path arguments -----

  /** The candidate's copy, as the sandbox lane sees it. */
  datatype Sandbox = Sandbox(
    scoped: string -> Option<string>, isFile: string -> bool,
    root: string, ini: string, quotedRoot: string,
    interpreter: string, bootstrap: string, ruff: Option<string>)

  /** `value.split("::", 1)[0]`. */
  function PathPart(value: string): string {
    if value == "" || (|value| >= 2 && value[0] == ':' && value[1] == ':') then ""
    else [value[0]] + PathPart(value[1..])
  }

  /** Two colons stand at this place. */
  predicate ColonsAt(s: string, i: int) {
    0 <= i < |s| - 1 && s[i] == ':' && s[i + 1] == ':'
  }

  /** The path part ends at the first two colons in a row, or it is all of the value. */
  lemma {:induction false} PathPartEnds(value: string)
    ensures var path := PathPart(value);
      path <= value && (path == value || ColonsAt(value, |path|)) && forall i :: ColonsAt(value, i) ==> |path| <= i
  {
    if value != "" && !ColonsAt(value, 0) {
      PathPartEnds(value[1..]);
      assert forall i :: i > 0 && ColonsAt(value, i) ==> ColonsAt(value[1..], i - 1);
    }
  }

  predicate IsRelative(path: string) {
    path == "" || path[0] != '/'
  }

  /** `_scoped_arg` lets the value through. */
  predicate IsScoped(box: Option<Sandbox>, value: string) {
    var path := PathPart(value);
    path != "" && if box.Some? then box.value.scoped(path).Some? else IsRelative(path) && ".." !in Split(path, '/')
  }

  /** Without a mirror a parent step among the parts of a path is refused, and so is an absolute path. */
  lemma ScopedIff(value: string, parts: seq<string>)
    requires parts != [] && PathPart(value) == Join(parts, '/') && forall part :: part in parts ==> '/' !in part
    ensures IsScoped(None, value) <==> parts != [""] && (parts[0] != "" || |parts| == 1) && ".." !in parts
  {
    SplitJoin(parts, '/');
    if |parts| > 1 && parts[0] != "" { assert Join(parts, '/')[0] == parts[0][0]; }
  }

  // ----- The grammar of pytest arguments -----

  /** The two flag lists, and what paths are held against. */
  datatype Rules = Rules(flags: set<string>, valueFlags: set<string>, box: Option<Sandbox>)

  /** Every listed flag starts with a dash and is on one list only. */
  ghost predicate Sound(rules: Rules) {
    && (forall f :: f in rules.flags ==> Dashed(f))
    && (forall f :: f in rules.valueFlags ==> Dashed(f) && f !in rules.flags)
  }

  function PytestRules(box: Option<Sandbox>): Rules {
    Rules({"-q", "-qq", "-v", "-vv", "-x", "-s", "-ra", "-rA", "--no-header", "--strict-markers",
           "--tb=short", "--tb=line", "--tb=no", "--tb=long"}, {"-k", "-m"}, box)
  }

  lemma PytestRulesAreSound(box: Option<Sandbox>)
    ensures Sound(PytestRules(box))
  {
  }

  /** One thing that the tool reads. */
  datatype Item = Flag(flag: string) | Valued(flag: string, value: string) | PathArg(path: string)

  predicate IsLegal(item: Item, rules: Rules) {
    match item
    case Flag(flag) => flag in rules.flags
    case Valued(flag, value) => flag in rules.valueFlags && !Dashed(value)
    case PathArg(path) => !Dashed(path) && IsScoped(rules.box, path)
  }

  function Words(item: Item): seq<string> {
    match item
    case Flag(flag) => [flag]
    case Valued(flag, value) => [flag, value]
    case PathArg(path) => [path]
  }

  function Written(items: seq<Item>): seq<string> {
    if items == [] then [] else Words(items[0]) + Written(items[1..])
  }

  ghost predicate AllLegal(items: seq<Item>, rules: Rules) {
    forall i :: 0 <= i < |items| ==> IsLegal(items[i], rules)
  }

  ghost predicate Reads(args: seq<string>, items: seq<Item>, rules: Rules) {
    AllLegal(items, rules) && Written(items) == args
  }

  ghost predicate IsReadable(args: seq<string>, rules: Rules) {
    exists items :: Reads(args, items, rules)
  }

  /** Nothing legal starts like `rest`, for the stated reason. */
  predicate Stops(rest: seq<string>, rules: Rules, why: Refusal) {
    && rest != []
    && if rest[0] in rules.valueFlags then
         (if |rest| == 1 then why == ValueMissing else Dashed(rest[1]) && why == ValueIsAFlag)
       else if Dashed(rest[0]) then rest[0] !in rules.flags && why == FlagNotAllowed
       else !IsScoped(rules.box, rest[0]) && why == PathOutside
  }

  ghost predicate StopsAfter(args: seq<string>, items: seq<Item>, rest: seq<string>, rules: Rules, why: Refusal) {
    AllLegal(items, rules) && args == Written(items) + rest && Stops(rest, rules, why)
  }

  ghost predicate IsUnreadable(args: seq<string>, rules: Rules, why: Refusal) {
    exists items, rest :: StopsAfter(args, items, rest, rules, why)
  }

  lemma {:induction false} WrittenAppend(items: seq<Item>, item: Item)
    ensures Written(items + [item]) == Written(items) + Words(item)
  {
    if items == [] {
      assert [item][1..] == [];
    } else {
      WrittenAppend(items[1..], item);
      assert (items + [item])[1..] == items[1..] + [item];
    }
  }

  /** A legal item is known by how it starts. */
  lemma FirstItem(a: Item, b: Item, x: seq<string>, y: seq<string>, rules: Rules)
    requires Sound(rules) && IsLegal(a, rules) && IsLegal(b, rules) && Words(a) + x == Words(b) + y
    ensures a == b && x == y
  {
    var s := Words(a) + x;
    assert s[0] == Words(a)[0] == Words(b)[0];
    assert |Words(a)| == |Words(b)|;
    assert s[..|Words(a)|] == Words(a) == Words(b);
    assert s[|Words(a)|..] == x && (Words(b) + y)[|Words(a)|..] == y;
    if a.Valued? { assert Words(a)[1] == Words(b)[1]; }
  }

  lemma StoppedIsNoItem(a: Item, x: seq<string>, rest: seq<string>, rules: Rules, why: Refusal)
    requires Sound(rules) && IsLegal(a, rules) && Words(a) + x == rest
    ensures !Stops(rest, rules, why)
  {
    assert rest[0] == Words(a)[0];
    if a.Valued? { assert rest[1] == Words(a)[1]; }
  }

  /** Two readings agree on the items they share, whatever follows the shorter one. */
  lemma {:induction false} ReadingsShareItems(a: seq<Item>, rest: seq<string>, b: seq<Item>, rules: Rules)
    requires Sound(rules) && AllLegal(a, rules) && AllLegal(b, rules) && Written(a) + rest == Written(b)
    ensures |a| <= |b| && a == b[..|a|] && rest == Written(b[|a|..])
  {
    if a != [] {
      assert b != [] by { assert (Words(a[0]) + Written(a[1..]))[0] == Words(a[0])[0]; }
      FirstOfReadings(a, rest, b, rules);
      ReadingsShareItems(a[1..], rest, b[1..], rules);
      assert b[1..][|a| - 1..] == b[|a|..];
    }
  }

  lemma Regroup(x: seq<string>, y: seq<string>, z: seq<string>)
    ensures x + y + z == x + (y + z)
  {
  }

  lemma FirstOfReadings(a: seq<Item>, rest: seq<string>, b: seq<Item>, rules: Rules)
    requires a != [] && b != []
    requires Sound(rules) && IsLegal(a[0], rules) && IsLegal(b[0], rules) && Written(a) + rest == Written(b)
    ensures a[0] == b[0] && Written(a[1..]) + rest == Written(b[1..])
  {
    Regroup(Words(a[0]), Written(a[1..]), rest);
    FirstItem(a[0], b[0], Written(a[1..]) + rest, Written(b[1..]), rules);
  }

  /** There is one way to read an argument list. */
  lemma ReadingIsUnique(args: seq<string>, a: seq<Item>, b: seq<Item>, rules: Rules)
    requires Sound(rules) && Reads(args, a, rules) && Reads(args, b, rules)
    ensures a == b
  {
    assert Written(a) + [] == Written(b);
    ReadingsShareItems(a, [], b, rules);
    assert b[|a|..] == [];
  }

  /** A list that stops somewhere has no reading at all. */
  lemma StoppedIsUnreadable(args: seq<string>, items: seq<Item>, rest: seq<string>, other: seq<Item>, rules: Rules,
      why: Refusal)
    requires Sound(rules) && StopsAfter(args, items, rest, rules, why) && AllLegal(other, rules)
    ensures Written(other) != args
  {
    if Written(other) == args {
      ReadingsShareItems(items, rest, other, rules);
      var more := other[|items|..];
      StoppedIsNoItem(more[0], Written(more[1..]), rest, rules, why);
    }
  }

  /** The pytest loop of `_checked_args`. */
  method CheckPytestArgs(args: seq<string>, rules: Rules) returns (outcome: Result<seq<string>, Refusal>)
    requires Sound(rules)
    ensures outcome.Ok? <==> IsReadable(args, rules)
    ensures outcome.Ok? ==> outcome.value == args
    ensures outcome.Err? ==> IsUnreadable(args, rules, outcome.error)
  {
    var checked: seq<string>, expectValue := [], false;
    ghost var items: seq<Item> := [];
    for i := 0 to |args|
      invariant checked == args[..i] && AllLegal(items, rules)
      invariant if expectValue then i > 0 && args[i - 1] in rules.valueFlags && Written(items) == args[..i - 1]
                else Written(items) == args[..i]
    {
      var arg := args[i];
      if expectValue {
        if Dashed(arg) { Refuse(args, items, i - 1, rules, ValueIsAFlag); return Err(ValueIsAFlag); }
        items := Extended(items, Valued(args[i - 1], arg), rules);
        expectValue := false;
      } else if arg in rules.valueFlags {
        expectValue := true;
      } else if Dashed(arg) {
        if arg !in rules.flags { Refuse(args, items, i, rules, FlagNotAllowed); return Err(FlagNotAllowed); }
        items := Extended(items, Flag(arg), rules);
      } else {
        if !IsScoped(rules.box, arg) { Refuse(args, items, i, rules, PathOutside); return Err(PathOutside); }
        items := Extended(items, PathArg(arg), rules);
      }
      checked := checked + [arg];
    }
    assert args[..|args|] == args;
    if expectValue { Refuse(args, items, |args| - 1, rules, ValueMissing); return Err(ValueMissing); }
    assert Reads(args, items, rules);
    outcome := Ok(checked);
  }

  ghost function Extended(items: seq<Item>, item: Item, rules: Rules): (longer: seq<Item>)
    requires AllLegal(items, rules) && IsLegal(item, rules)
    ensures AllLegal(longer, rules) && Written(longer) == Written(items) + Words(item)
  {
    WrittenAppend(items, item);
    items + [item]
  }

  lemma Refuse(args: seq<string>, items: seq<Item>, at: nat, rules: Rules, why: Refusal)
    requires Sound(rules) && at <= |args| && AllLegal(items, rules) && Written(items) == args[..at] &&
      Stops(args[at..], rules, why)
    ensures IsUnreadable(args, rules, why) && !IsReadable(args, rules)
  {
    assert args == args[..at] + args[at..];
    assert StopsAfter(args, items, args[at..], rules, why);
    forall other | AllLegal(other, rules) ensures Written(other) != args {
      StoppedIsUnreadable(args, items, args[at..], other, rules, why);
    }
  }

  // ----- What a readable list can hold -----

  /** Every argument is a listed flag, a value flag with its value behind it, such a value, or a scoped path. */
  ghost predicate HasPlace(args: seq<string>, i: nat, rules: Rules)
    requires i < |args|
  {
    || args[i] in rules.flags
    || (args[i] in rules.valueFlags && i + 1 < |args| && !Dashed(args[i + 1]))
    || (!Dashed(args[i]) && i > 0 && args[i - 1] in rules.valueFlags)
    || (!Dashed(args[i]) && IsScoped(rules.box, args[i]))
  }

  lemma LastItemHasPlaces(front: seq<string>, last: Item, rules: Rules, i: nat)
    requires IsLegal(last, rules) && |front| <= i < |front| + |Words(last)|
    ensures HasPlace(front + Words(last), i, rules)
  {
    var args := front + Words(last);
    assert args[i] == Words(last)[i - |front|];
    if last.Valued? { assert args[|front|] == last.flag && args[|front| + 1] == last.value; }
  }

  lemma {:induction false} ReadableHasPlaces(args: seq<string>, items: seq<Item>, rules: Rules)
    requires Reads(args, items, rules)
    ensures forall i :: 0 <= i < |args| ==> HasPlace(args, i, rules)
    decreases |items|
  {
    if items != [] {
      var most, last := items[..|items| - 1], items[|items| - 1];
      var front := Written(most);
      assert items == most + [last];
      WrittenAppend(most, last);
      ReadableHasPlaces(front, most, rules);
      forall i | 0 <= i < |args| ensures HasPlace(args, i, rules) {
        if i < |front| { PlaceStays(front, Words(last), i, rules); } else { LastItemHasPlaces(front, last, rules, i); }
      }
    }
  }

  lemma PlaceStays(front: seq<string>, more: seq<string>, i: nat, rules: Rules)
    requires i < |front| && HasPlace(front, i, rules)
    ensures HasPlace(front + more, i, rules)
  {
    var args := front + more;
    assert args[i] == front[i] && (i > 0 ==> args[i - 1] == front[i - 1]);
    assert i + 1 < |front| ==> args[i + 1] == front[i + 1];
  }

  /** No dashed argument reaches pytest but a listed flag, or a value flag with a plain value behind it. */
  lemma DashedArgsAreListed(args: seq<string>, rules: Rules, i: nat)
    requires IsReadable(args, rules) && i < |args| && Dashed(args[i])
    ensures args[i] in rules.flags || (args[i] in rules.valueFlags && i + 1 < |args| && !Dashed(args[i + 1]))
  {
    var items :| Reads(args, items, rules);
    ReadableHasPlaces(args, items, rules);
    assert HasPlace(args, i, rules);
  }

  /** A flag of the fixed words that confine the run. */
  predicate Reconfines(arg: string) {
    || (|arg| >= 2 && arg[0] == '-' && arg[1] in {'p', 'c', 'o', 'W'})
    || "--rootdir" <= arg || "--noconftest" <= arg || "--confcutdir" <= arg || "--override-ini" <= arg
  }

  lemma ListedFlagsKeepConfinement(box: Option<Sandbox>, flag: string)
    requires flag in PytestRules(box).flags || flag in PytestRules(box).valueFlags
    ensures !Reconfines(flag)
  {
    assert "--rootdir"[2] == 'r' && "--confcutdir"[2] == 'c' && "--override-ini"[2] == 'o' && "--noconftest"[4] == 'c';
    assert "--no-header"[2] == 'n' && "--no-header"[4] == '-' && "--strict-markers"[2] == 's';
    assert "--tb=short"[2] == "--tb=line"[2] == "--tb=no"[2] == "--tb=long"[2] == 't';
  }

  /** No argument that pytest is handed changes the configuration, the root, the plugins or the options again. */
  lemma ConfinementIsKept(args: seq<string>, box: Option<Sandbox>, i: nat)
    requires IsReadable(args, PytestRules(box)) && i < |args|
    ensures !Reconfines(args[i])
  {
    if Dashed(args[i]) {
      DashedArgsAreListed(args, PytestRules(box), i);
      ListedFlagsKeepConfinement(box, args[i]);
    }
  }

  /** Each flag of the list is accepted on its own, and nothing else that starts with a dash is. */
  lemma LoneFlagIff(flag: string, box: Option<Sandbox>)
    requires Dashed(flag)
    ensures IsReadable([flag], PytestRules(box)) <==>
      flag in ["-q", "-qq", "-v", "-vv", "-x", "-s", "-ra", "-rA", "--tb=short", "--tb=line", "--tb=no", "--tb=long",
               "--no-header", "--strict-markers"]
  {
    var rules := PytestRules(box);
    if IsReadable([flag], rules) {
      DashedArgsAreListed([flag], rules, 0);
    }
    if flag in rules.flags {
      assert Reads([flag], [Flag(flag)], rules) by { assert [Flag(flag)][1..] == []; }
    }
  }

  /** A keyword or marker expression is accepted behind its flag unless it starts with a dash. */
  lemma ValuedFlagIff(flag: string, value: string, box: Option<Sandbox>)
    requires flag in ["-k", "-m"]
    ensures IsReadable([flag, value], PytestRules(box)) <==> !Dashed(value)
  {
    var rules := PytestRules(box);
    if IsReadable([flag, value], rules) {
      DashedArgsAreListed([flag, value], rules, 0);
    }
    if !Dashed(value) {
      assert Reads([flag, value], [Valued(flag, value)], rules) by { assert [Valued(flag, value)][1..] == []; }
    }
  }

  /** Mirror or none, the same list is read the same way. */
  lemma MirrorKeepsReading(args: seq<string>, a: seq<Item>, b: seq<Item>, x: Rules, y: Rules)
    requires Sound(x) && x.flags == y.flags && x.valueFlags == y.valueFlags
    requires Reads(args, a, x) && Reads(args, b, y)
    ensures a == b
  {
    var open := x.(box := Some(Sandbox(p => Some(p), p => true, "", "", "", "", "", None)));
    forall i | 0 <= i < |a| ensures IsLegal(a[i], open) { assert IsLegal(a[i], x); }
    forall i | 0 <= i < |b| ensures IsLegal(b[i], open) { assert IsLegal(b[i], y); }
    ReadingIsUnique(args, a, b, open);
  }

  /** What the mirror adds to a list that was read without it: every path argument is inside. */
  lemma MirrorReadsIff(args: seq<string>, items: seq<Item>, x: Rules, y: Rules)
    requires Sound(x) && x.flags == y.flags && x.valueFlags == y.valueFlags && x.box == None && y.box.Some?
    requires Reads(args, items, x)
    ensures IsReadable(args, y) <==>
            forall i :: 0 <= i < |items| && items[i].PathArg? ==> y.box.value.scoped(PathPart(items[i].path)).Some?
  {
    if IsReadable(args, y) {
      var other :| Reads(args, other, y);
      MirrorKeepsReading(args, items, other, x, y);
      assert forall i :: 0 <= i < |items| ==> IsLegal(items[i], y);
    } else {
      assert AllLegal(items, y) ==> Reads(args, items, y);
      var i :| 0 <= i < |items| && !IsLegal(items[i], y);
      assert IsLegal(items[i], x);
    }
  }

  // ----- Scripts and ruff -----

  datatype Kind = Pytest | Script | Ruff

  /** The arguments handed on: unchanged, but for a script found in the mirror. */
  function Checked(kind: Kind, args: seq<string>, box: Option<Sandbox>): seq<string> {
    if kind == Script && box.Some? && args != [] &&
      box.value.scoped(args[0]).Some? then [box.value.scoped(args[0]).value] + args[1..]
    else args
  }

  predicate IsScript(args: seq<string>, box: Option<Sandbox>) {
    && args != []
    && IsScoped(box, args[0])
    && (box.Some? ==> box.value.scoped(args[0]).Some? && box.value.isFile(box.value.scoped(args[0]).value))
    && forall i :: 1 <= i < |args| ==> !Dashed(args[i]) && IsScoped(box, args[i])
  }

  /** The script itself is in scope and, in a mirror, a file. */
  predicate HasScript(args: seq<string>, box: Option<Sandbox>)
    requires args != []
  {
    IsScoped(box, args[0]) &&
      (box.None? || (box.value.scoped(args[0]).Some? && box.value.isFile(box.value.scoped(args[0]).value)))
  }

  function CheckScriptArgs(args: seq<string>, box: Option<Sandbox>): (outcome: Result<seq<string>, Refusal>)
    requires args != []
    ensures outcome.Ok? <==> IsScript(args, box)
    ensures outcome.Ok? ==> outcome.value == Checked(Script, args, box)
    ensures outcome == Err(ScriptOutside) <==> IsScoped(box, args[0]) && !HasScript(args, box)
    ensures outcome == Err(ScriptFlag) <==> HasScript(args, box) && exists i :: 1 <= i < |args| && Dashed(args[i])
    ensures outcome.Err? ==> outcome.error in {ScriptOutside, ScriptFlag, PathOutside}
  {
    if !IsScoped(box, args[0]) then Err(PathOutside)
    else if box.Some? &&
      !(box.value.scoped(args[0]).Some? && box.value.isFile(box.value.scoped(args[0]).value)) then Err(ScriptOutside)
    else
      var rest := args[1..];
      assert forall i :: 1 <= i < |args| ==> args[i] == rest[i - 1];
      if exists i :: 0 <= i < |rest| && Dashed(rest[i]) then Err(ScriptFlag)
      else if exists i :: 0 <= i < |rest| && !IsScoped(box, rest[i]) then Err(PathOutside)
      else if box.Some? then Ok([box.value.scoped(args[0]).value] + rest)
      else Ok(args)
  }

  predicate IsRuffFlag(arg: string) {
    || arg in {"--no-fix", "--diff", "--check", "--quiet", "-q", "--preview"}
    || "--select=" <= arg || "--ignore=" <= arg || "--output-format=" <= arg || "--line-length=" <= arg
  }

  predicate IsRuffArg(arg: string, box: Option<Sandbox>) {
    if Dashed(arg) then IsRuffFlag(arg) else IsScoped(box, arg)
  }

  method CheckRuffArgs(args: seq<string>, box: Option<Sandbox>) returns (outcome: Result<seq<string>, Refusal>)
    requires args != []
    ensures outcome.Ok? <==> forall i :: 1 <= i < |args| ==> IsRuffArg(args[i], box)
    ensures outcome.Ok? ==> outcome.value == args
    ensures outcome.Err? ==> exists i :: 1 <= i < |args| && !IsRuffArg(args[i], box)
                               && (forall j :: 1 <= j < i ==> IsRuffArg(args[j], box))
                               && outcome.error == if Dashed(args[i]) then FlagNotAllowed else PathOutside
  {
    var checked := [args[0]];
    for i := 1 to |args|
      invariant checked == args[..i]
      invariant forall j :: 1 <= j < i ==> IsRuffArg(args[j], box)
    {
      var arg := args[i];
      if Dashed(arg) {
        var listed := arg in {"--no-fix", "--diff", "--check", "--quiet", "-q", "--preview"};
        var prefixed := "--select=" <= arg || "--ignore=" <= arg || "--output-format=" <= arg ||
          "--line-length=" <= arg;
        if !listed && !prefixed { return Err(FlagNotAllowed); }
        checked := checked + [arg];
      } else {
        if !IsScoped(box, arg) { return Err(PathOutside); }
        checked := checked + [arg];
      }
    }
    assert args[..|args|] == args;
    outcome := Ok(checked);
  }

  // ----- Whole commands -----

  ghost predicate IsAdmitted(kind: Kind, args: seq<string>, box: Option<Sandbox>) {
    match kind
    case Pytest => IsReadable(args, PytestRules(box))
    case Script => IsScript(args, box)
    case Ruff => args != [] && forall i :: 1 <= i < |args| ==> IsRuffArg(args[i], box)
  }

  /** The refusals that are about the arguments behind the program. */
  predicate IsArgumentRefusal(why: Refusal) {
    why in {PathOutside, FlagNotAllowed, ValueIsAFlag, ValueMissing, ScriptFlag, ScriptOutside}
  }

  method CheckedArgs(kind: Kind, args: seq<string>, box: Option<Sandbox>)
      returns (outcome: Result<seq<string>, Refusal>)
    requires kind != Pytest ==> args != []
    ensures outcome.Ok? <==> IsAdmitted(kind, args, box)
    ensures outcome.Ok? ==> outcome.value == Checked(kind, args, box)
    ensures kind == Pytest && outcome.Err? ==> IsUnreadable(args, PytestRules(box), outcome.error)
    ensures kind == Script ==> outcome == CheckScriptArgs(args, box)
    ensures outcome.Err? ==> IsArgumentRefusal(outcome.error)
  {
    match kind
    case Pytest =>
      PytestRulesAreSound(box);
      outcome := CheckPytestArgs(args, PytestRules(box));
    case Script =>
      outcome := CheckScriptArgs(args, box);
    case Ruff =>
      outcome := CheckRuffArgs(args, box);
  }

  /** `str.endswith(".py")`. */
  predicate IsPythonFile(arg: string) {
    |arg| >= 3 && arg[|arg| - 3..] == ".py"
  }

  function Classify(argv: seq<string>): (outcome: Result<(Kind, seq<string>), Refusal>)
    requires argv != []
    ensures outcome.Ok? && outcome.value.0 != Pytest ==> outcome.value.1 != []
  {
    var head, rest := argv[0], argv[1..];
    if head == "python" || head == "python3" then
      var args := if |rest| >= 1 && rest[0] == "-I" then rest[1..] else rest;
      if |args| >= 2 && args[0] == "-m" && args[1] == "pytest" then Ok((Pytest, args[2..]))
      else if args != [] && IsPythonFile(args[0]) && !Dashed(args[0]) then Ok((Script, args))
      else Err(PythonForm)
    else if head == "ruff" then
      if rest == [] || (rest[0] != "check" && rest[0] != "format") then Err(RuffSubcommand) else Ok((Ruff, rest))
    else Err(Program)
  }

  /** The two ways to ask for pytest, and no other. */
  lemma PytestForms(argv: seq<string>, args: seq<string>)
    requires argv != []
    ensures Classify(argv) == Ok((Pytest, args)) <==>
            argv[0] in {"python", "python3"} &&
              (argv[1..] == ["-m", "pytest"] + args || argv[1..] == ["-I", "-m", "pytest"] + args)
  {
    var rest := argv[1..];
    var tail := if |rest| >= 1 && rest[0] == "-I" then rest[1..] else rest;
    assert rest == tail || rest == ["-I"] + tail;
    assert |tail| >= 2 ==> tail == [tail[0], tail[1]] + tail[2..];
    assert "-m"[1] == 'm' && "-I"[1] == 'I';
    if rest == ["-m", "pytest"] + args {
      assert rest[0] == "-m" && rest[2..] == args;
    }
    if rest == ["-I", "-m", "pytest"] + args {
      assert rest[0] == "-I" && rest[1..] == ["-m", "pytest"] + args && rest[1..][2..] == args;
    }
  }

  lemma PythonFileIff(arg: string)
    ensures IsPythonFile(arg) <==> exists stem :: arg == stem + ".py"
  {
    if IsPythonFile(arg) { assert arg == arg[..|arg| - 3] + ".py"; }
    if stem :| arg == stem + ".py" { assert arg[|arg| - 3..] == ".py"; }
  }

  /** The ways to ask for a script: its name ends in `.py` and is no flag. */
  lemma ScriptForms(argv: seq<string>, args: seq<string>)
    requires argv != []
    ensures Classify(argv) == Ok((Script, args)) <==>
            && argv[0] in {"python", "python3"} && (argv[1..] == args || argv[1..] == ["-I"] + args)
            && args != [] && args[0] != "" && args[0][0] != '-' && exists stem :: args[0] == stem + ".py"
  {
    var rest := argv[1..];
    var tail := if |rest| >= 1 && rest[0] == "-I" then rest[1..] else rest;
    assert rest == tail || rest == ["-I"] + tail;
    assert "-I"[0] == '-' && "-m"[0] == '-' && "-I"[1] == 'I';
    if args != [] { PythonFileIff(args[0]); }
    if rest == ["-I"] + args { assert rest[0] == "-I" && rest[1..] == args; }
  }

  /** The ways to ask for ruff: `check` or `format`, with everything behind it. */
  lemma RuffForms(argv: seq<string>, args: seq<string>)
    requires argv != []
    ensures Classify(argv) == Ok((Ruff, args)) <==>
            argv[0] == "ruff" && args == argv[1..] && args != [] && args[0] in {"check", "format"}
  {
    assert "ruff"[0] == 'r' && "python"[0] == 'p' && "python3"[0] == 'p';
  }

  /** The reason of a refused form goes by the program. */
  lemma FormRefusals(argv: seq<string>)
    requires argv != [] && Classify(argv).Err?
    ensures Classify(argv).error ==
      if argv[0] in {"python", "python3"} then PythonForm else if argv[0] == "ruff" then RuffSubcommand else Program
  {
    assert "ruff"[0] == 'r' && "python"[0] == 'p' && "python3"[0] == 'p';
  }

  datatype Command = Argv(parts: seq<string>) | Line(text: string) | Other

  /** A line is split without a shell, by `shlex.split` (`None` when it raises). */
  function RawArgv(command: Command, split: string -> Option<seq<string>>): Result<seq<string>, Refusal> {
    match command
    case Argv(parts) => Ok(parts)
    case Line(text) =>
      if exists i :: 0 <= i < |text| && text[i] in {';', '&', '|', '`', '$', '<', '>', '\n', '\r'} then Err(ShellSyntax)
      else if split(text).None? then Err(Unparseable)
      else Ok(split(text).value)
    case Other => Err(NotArgv)
  }

  predicate HasDotDot(part: string) {
    exists i :: 0 <= i < |part| - 1 && part[i] == '.' && part[i + 1] == '.'
  }

  predicate IsWord(part: string) {
    part != "" && '\0' !in part
  }

  ghost predicate AcceptsArgv(argv: seq<string>) {
    && argv != []
    && (forall i :: 0 <= i < |argv| ==> IsWord(argv[i]) && !HasDotDot(argv[i]))
    && Classify(argv).Ok?
    && IsAdmitted(Classify(argv).value.0, Classify(argv).value.1, None)
  }

  /** The words are searched first, then the form is, and the arguments come last. */
  ghost predicate RefusesFor(argv: seq<string>, why: Refusal) {
    if argv == [] || exists i :: 0 <= i < |argv| && !IsWord(argv[i]) then why == EmptyArgument
    else if exists i :: 0 <= i < |argv| && HasDotDot(argv[i]) then why == DotDotArgument
    else if Classify(argv).Err? then why == Classify(argv).error
    else IsArgumentRefusal(why)
  }

  /** Lines 131-141: the words of the request. */
  method SplitCommand(command: Command, split: string -> Option<seq<string>>)
      returns (outcome: Result<seq<string>, Refusal>)
    ensures outcome == RawArgv(command, split)
  {
    match command {
      case Argv(parts) =>
        return Ok(parts);
      case Line(text) =>
        if exists i :: 0 <= i < |text| && text[i] in ";&|`$<>\n\r" { return Err(ShellSyntax); }
        var parts := split(text);
        return if parts.None? then Err(Unparseable) else Ok(parts.value);
      case Other =>
        return Err(NotArgv);
    }
  }

  method ParseCommand(command: Command, split: string -> Option<seq<string>>)
      returns (outcome: Result<seq<string>, Refusal>)
    ensures outcome.Ok? <==> RawArgv(command, split).Ok? && AcceptsArgv(RawArgv(command, split).value)
    ensures outcome.Ok? ==> outcome == RawArgv(command, split)
    ensures RawArgv(command, split).Err? ==> outcome == RawArgv(command, split)
    ensures RawArgv(command, split).Ok? && outcome.Err? ==> RefusesFor(RawArgv(command, split).value, outcome.error)
  {
    var raw := SplitCommand(command, split);
    if raw.Err? { return raw; }
    var argv := raw.value;
    if argv == [] || exists i :: 0 <= i < |argv| && (argv[i] == "" || '\0' in argv[i]) { return Err(EmptyArgument); }
    if exists i :: 0 <= i < |argv| && HasDotDot(argv[i]) { return Err(DotDotArgument); }
    var form := Classify(argv);
    if form.Err? { return Err(form.error); }
    var checked := CheckedArgs(form.value.0, form.value.1, None);
    if checked.Err? { return Err(checked.error); }
    outcome := Ok(argv);
  }

  function PytestPrefix(box: Sandbox): seq<string> {
    [box.interpreter, "-I", "-m", "pytest", "-p", "no:cacheprovider", "--noconftest", "-c", box.ini,
     "--rootdir", box.root, "-o", "pythonpath=" + box.quotedRoot, "-o", "addopts="]
  }

  /** The words put in front of the request's own. */
  function Confined(kind: Kind, checked: seq<string>, box: Sandbox): seq<string>
    requires kind == Ruff ==> checked != [] && box.ruff.Some?
  {
    match kind
    case Pytest => PytestPrefix(box) + checked
    case Script => [box.interpreter, "-I", "-c", box.bootstrap] + checked
    case Ruff => [box.ruff.value, checked[0], "--no-cache", "--isolated"] + checked[1..]
  }

  method BuildArgv(command: seq<string>, box: Sandbox) returns (outcome: Result<seq<string>, Refusal>)
    requires command != []
    ensures outcome.Ok? <==>
              && Classify(command).Ok?
              && IsAdmitted(Classify(command).value.0, Classify(command).value.1, Some(box))
              && (Classify(command).value.0 == Ruff ==> box.ruff.Some?)
    ensures outcome.Ok? ==>
              var (kind, args) := Classify(command).value;
              outcome.value == Confined(kind, Checked(kind, args, Some(box)), box)
    ensures outcome.Err? ==>
              if Classify(command).Err? then outcome.error == Classify(command).error
              else if IsAdmitted(Classify(command).value.0, Classify(command).value.1, Some(box))
              then outcome.error == RuffUnavailable
              else IsArgumentRefusal(outcome.error)
  {
    var form := Classify(command);
    if form.Err? { return Err(form.error); }
    var (kind, args) := form.value;
    var checked := CheckedArgs(kind, args, Some(box));
    if checked.Err? { return Err(checked.error); }
    if kind == Ruff && box.ruff.None? { return Err(RuffUnavailable); }
    match kind {
      case Pytest =>
        outcome := Ok([box.interpreter, "-I", "-m", "pytest", "-p", "no:cacheprovider", "--noconftest", "-c", box.ini,
                       "--rootdir", box.root, "-o", "pythonpath=" + box.quotedRoot, "-o", "addopts="] + checked.value);
      case Script =>
        outcome := Ok([box.interpreter, "-I", "-c", box.bootstrap] + checked.value);
      case Ruff =>
        outcome := Ok([box.ruff.value, checked.value[0], "--no-cache", "--isolated"] + checked.value[1..]);
    }
  }

  // ----- Parent steps -----

  predicate StandsAt(part: string, s: string, at: nat) {
    at + |part| <= |s| && s[at..at + |part|] == part
  }

  lemma StandsLater(part: string, s: string, at: nat)
    requires s != "" && StandsAt(part, s[1..], at)
    ensures StandsAt(part, s, at + 1)
  {
    assert s[1..][at..at + |part|] == s[at + 1..at + 1 + |part|];
  }

  /** A part of a split text stands in it as it is, the first one at its front. */
  lemma {:induction false} PartStands(s: string, sep: char, i: nat) returns (at: nat)
    requires i < |Split(s, sep)|
    ensures StandsAt(Split(s, sep)[i], s, at) && (i == 0 ==> at == 0)
  {
    at := 0;
    if s != "" {
      var rest := Split(s[1..], sep);
      if i > 0 {
        at := PartStands(s[1..], sep, if s[0] == sep then i - 1 else i);
        StandsLater(Split(s, sep)[i], s, at);
        at := at + 1;
      } else if s[0] != sep {
        at := PartStands(s[1..], sep, 0);
        assert s[..1 + |rest[0]|] == [s[0]] + s[1..][..|rest[0]|];
      }
    }
  }

  lemma {:induction false} PathPartIsPrefix(value: string)
    ensures PathPart(value) <= value
  {
    if value != "" { PathPartIsPrefix(value[1..]); }
  }

  lemma ParentStepShows(value: string)
    requires ".." in Split(PathPart(value), '/')
    ensures HasDotDot(value)
  {
    var parts := Split(PathPart(value), '/');
    PathPartIsPrefix(value);
    var i :| 0 <= i < |parts| && parts[i] == "..";
    var at := PartStands(PathPart(value), '/', i);
    assert PathPart(value)[at..at + 2] == "..";
    assert value[at] == ".."[0] && value[at + 1] == ".."[1];
  }

  /** After the search for "..", the test for parent steps refuses nothing more. */
  lemma NoParentStepIsLeft(value: string)
    requires !HasDotDot(value)
    ensures ".." !in Split(PathPart(value), '/')
    ensures IsScoped(None, value) <==> PathPart(value) != "" && PathPart(value)[0] != '/'
  {
    if ".." in Split(PathPart(value), '/') { ParentStepShows(value); }
  }

  // ----- From the request to the run -----

  /** A word that is not empty and holds neither a NUL nor two dots in a row. */
  ghost predicate IsPlainWord(word: string) {
    word != "" && (forall i :: 0 <= i < |word| ==> word[i] != '\0') && !exists a, b :: word == a + ".." + b
  }

  ghost predicate ArePlainWords(argv: seq<string>) {
    forall i :: 0 <= i < |argv| ==> IsPlainWord(argv[i])
  }

  lemma DotDotIff(word: string)
    ensures HasDotDot(word) <==> exists a, b :: word == a + ".." + b
  {
    if HasDotDot(word) {
      var i :| 0 <= i < |word| - 1 && word[i] == '.' && word[i + 1] == '.';
      assert word == word[..i] + ".." + word[i + 2..];
    }
    if a, b :| word == a + ".." + b {
      assert word[|a|] == '.' && word[|a| + 1] == '.';
    }
  }

  lemma PlainWordsIff(argv: seq<string>)
    ensures ArePlainWords(argv) <==> forall i :: 0 <= i < |argv| ==> IsWord(argv[i]) && !HasDotDot(argv[i])
  {
    forall i | 0 <= i < |argv| ensures IsPlainWord(argv[i]) <==> IsWord(argv[i]) && !HasDotDot(argv[i]) {
      DotDotIff(argv[i]);
    }
  }

  /** A relative path that is no flag. */
  predicate IsPlainPath(value: string) {
    !Dashed(value) && PathPart(value) != "" && PathPart(value)[0] != '/'
  }

  ghost predicate IsScriptCommand(argv: seq<string>, head: string, isolated: bool, args: seq<string>) {
    && head in {"python", "python3"} && argv == [head] + ((if isolated then ["-I"] else []) + args)
    && ArePlainPaths(args) && exists stem :: args[0] == stem + ".py"
  }

  predicate ArePlainPaths(args: seq<string>) {
    args != [] && forall i :: 0 <= i < |args| ==> IsPlainPath(args[i])
  }

  lemma ScriptIff(args: seq<string>)
    requires forall i :: 0 <= i < |args| ==> !HasDotDot(args[i])
    ensures IsScript(args, None) && !Dashed(args[0]) <==> ArePlainPaths(args)
  {
    forall i | 0 <= i < |args| ensures IsScoped(None, args[i]) && !Dashed(args[i]) <==> IsPlainPath(args[i]) {
      NoParentStepIsLeft(args[i]);
    }
  }

  lemma PlainTail(argv: seq<string>, front: seq<string>, args: seq<string>)
    requires ArePlainWords(argv) && argv == front + args
    ensures forall i :: 0 <= i < |args| ==> !HasDotDot(args[i])
  {
    forall i | 0 <= i < |args| ensures !HasDotDot(args[i]) {
      assert argv[|front| + i] == args[i];
      DotDotIff(args[i]);
    }
  }

  lemma AcceptedScriptIsPrinted(argv: seq<string>, args: seq<string>) returns (isolated: bool)
    requires ArePlainWords(argv) && AcceptsArgv(argv) && Classify(argv) == Ok((Script, args))
    ensures IsScriptCommand(argv, argv[0], isolated, args)
  {
    ScriptForms(argv, args);
    isolated := argv[1..] == ["-I"] + args;
    var flags := if isolated then ["-I"] else [];
    assert argv == [argv[0]] + argv[1..] && argv[1..] == flags + args;
    Regroup([argv[0]], flags, args);
    PlainTail(argv, [argv[0]] + flags, args);
    ScriptIff(args);
  }

  lemma PrintedScriptIsAccepted(argv: seq<string>, head: string, isolated: bool, args: seq<string>)
    requires ArePlainWords(argv) && IsScriptCommand(argv, head, isolated, args)
    ensures AcceptsArgv(argv) && Classify(argv) == Ok((Script, args))
  {
    var flags := if isolated then ["-I"] else [];
    assert argv[1..] == flags + args;
    Regroup([head], flags, args);
    PlainTail(argv, [head] + flags, args);
    ScriptIff(args);
    ScriptForms(argv, args);
    PlainWordsIff(argv);
  }

  /** The accepted scripts: an interpreter, perhaps `-I`, a relative `.py` path and relative paths. */
  lemma AcceptedScriptIff(argv: seq<string>)
    ensures AcceptsArgv(argv) && Classify(argv).value.0 == Script <==>
      ArePlainWords(argv) && exists head, isolated, args :: IsScriptCommand(argv, head, isolated, args)
  {
    if AcceptsArgv(argv) && Classify(argv).value.0 == Script {
      PlainWordsIff(argv);
      var isolated := AcceptedScriptIsPrinted(argv, Classify(argv).value.1);
    }
    if ArePlainWords(argv) && exists head, isolated, args :: IsScriptCommand(argv, head, isolated, args) {
      var head, isolated, args :| IsScriptCommand(argv, head, isolated, args);
      PrintedScriptIsAccepted(argv, head, isolated, args);
    }
  }

  /** The accepted ruff commands: `check` or `format`, then listed flags and relative paths. */
  lemma AcceptedRuffIff(argv: seq<string>)
    ensures AcceptsArgv(argv) && Classify(argv).value.0 == Ruff <==>
      && ArePlainWords(argv) && |argv| >= 2 && argv[0] == "ruff" && argv[1] in {"check", "format"}
      && forall i :: 2 <= i < |argv| ==> IsPlainPath(argv[i]) || (Dashed(argv[i]) && IsRuffFlag(argv[i]))
  {
    PlainWordsIff(argv);
    if argv != [] {
      RuffForms(argv, argv[1..]);
      if ArePlainWords(argv) {
        forall i | 1 <= i < |argv|
          ensures IsRuffArg(argv[i], None) <==> IsPlainPath(argv[i]) || (Dashed(argv[i]) && IsRuffFlag(argv[i]))
        {
          NoParentStepIsLeft(argv[i]);
        }
        assert forall i :: 1 <= i < |argv[1..]| ==> argv[1..][i] == argv[i + 1];
      }
    }
  }

  /** The words of a pytest request with these items. */
  function PytestCommand(head: string, isolated: bool, items: seq<Item>): seq<string> {
    [head] + ((if isolated then ["-I", "-m", "pytest"] else ["-m", "pytest"]) + Written(items))
  }

  ghost predicate IsPytestCommand(argv: seq<string>, head: string, isolated: bool, items: seq<Item>) {
    head in {"python", "python3"} && AllLegal(items, PytestRules(None)) && argv == PytestCommand(head, isolated, items)
  }

  ghost predicate IsAcceptedPytest(argv: seq<string>) {
    AcceptsArgv(argv) && Classify(argv).value.0 == Pytest
  }

  lemma PytestCommandTail(head: string, isolated: bool, items: seq<Item>)
    ensures var tail := (if isolated then ["-I", "-m", "pytest"] else ["-m", "pytest"]) + Written(items);
      PytestCommand(head, isolated, items)[0] == head && PytestCommand(head, isolated, items)[1..] == tail
  {
  }

  lemma PrintedPytestIsAccepted(argv: seq<string>, head: string, isolated: bool, items: seq<Item>)
    requires IsPytestCommand(argv, head, isolated, items)
    requires forall i :: 0 <= i < |argv| ==> IsWord(argv[i]) && !HasDotDot(argv[i])
    ensures IsAcceptedPytest(argv)
  {
    PytestCommandTail(head, isolated, items);
    PytestForms(argv, Written(items));
    assert Reads(Written(items), items, PytestRules(None));
  }

  /**
   * The accepted pytest commands are exactly the printed ones: an interpreter, perhaps `-I`, and
   * then flags, valued flags and relative paths (`ReadingIsUnique`: in one way), in words that
   * are not empty and hold neither a NUL nor two dots in a row.
   */
  lemma AcceptedPytestIsPrinted(argv: seq<string>)
    ensures IsAcceptedPytest(argv) <==>
      ArePlainWords(argv) && exists head, isolated, items :: IsPytestCommand(argv, head, isolated, items)
  {
    PlainWordsIff(argv);
    if IsAcceptedPytest(argv) {
      var args := Classify(argv).value.1;
      PytestForms(argv, args);
      var items :| Reads(args, items, PytestRules(None));
      var isolated := argv[1..] == ["-I", "-m", "pytest"] + args;
      PytestCommandTail(argv[0], isolated, items);
      assert argv == [argv[0]] + argv[1..];
      assert IsPytestCommand(argv, argv[0], isolated, items);
    }
    if exists head, isolated, items :: IsPytestCommand(argv, head, isolated, items) {
      var head, isolated, items :| IsPytestCommand(argv, head, isolated, items);
      if ArePlainWords(argv) {
        PrintedPytestIsAccepted(argv, head, isolated, items);
      }
    }
  }

  lemma MirrorHoldsIff(args: seq<string>, items: seq<Item>, box: Sandbox)
    requires Reads(args, items, PytestRules(None))
    ensures IsReadable(args, PytestRules(Some(box))) <==>
            forall i :: 0 <= i < |items| && items[i].PathArg? ==> box.scoped(PathPart(items[i].path)).Some?
  {
    PytestRulesAreSound(None);
    MirrorReadsIff(args, items, PytestRules(None), PytestRules(Some(box)));
  }

  /**
   * A pytest request that was accepted is built exactly when the mirror holds every path it
   * names, and the run then reads the request's own words, unchanged, after the fixed prefix.
   */
  lemma AcceptedPytestIsBuiltIff(argv: seq<string>, args: seq<string>, items: seq<Item>, box: Sandbox)
    requires AcceptsArgv(argv) && Classify(argv) == Ok((Pytest, args)) && Reads(args, items, PytestRules(None))
    ensures IsAdmitted(Pytest, args, Some(box)) <==>
            forall i :: 0 <= i < |items| && items[i].PathArg? ==> box.scoped(PathPart(items[i].path)).Some?
    ensures Confined(Pytest, Checked(Pytest, args, Some(box)), box) == PytestPrefix(box) + Written(items)
  {
    MirrorHoldsIff(args, items, box);
  }
}
