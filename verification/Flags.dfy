/** What Go's flag package makes of the reordered arguments, and exactly when that is what was meant. */
module Flags {
  import opened Text
  import opened Args

  // ---------- Go's flag package, for flags that take a value ----------

  datatype Assignment = Assignment(name: string, value: string)

  datatype FlagError = BadSyntax(arg: string) | Help | Undefined(name: string) | NeedsArgument(name: string)

  /** The flags set, in order, and the arguments left over; or where parsing failed. */
  datatype Parse = Parsed(settings: seq<Assignment>, rest: seq<string>) | Failed(settings: seq<Assignment>, error: FlagError)

  /** One flag: set, using n arguments, or an error. */
  datatype One = Took(a: Assignment, n: nat) | Bad(error: FlagError)

  function SetFlag(p: Parse, a: Assignment): Parse {
    match p
    case Parsed(s, r) => Parsed([a] + s, r)
    case Failed(s, e) => Failed([a] + s, e)
  }

  /** A flag argument: its name, and its value if that follows an equals sign. */
  datatype Flag = Malformed | Flag(name: string, value: Option<string>)

  /** Where the first equals sign stands, or the length. */
  function EqualsAt(name: string): (i: nat)
    ensures i <= |name| && (i < |name| <==> '=' in name)
    ensures i < |name| ==> name[i] == '='
  {
    if name == "" || name[0] == '=' then 0 else 1 + EqualsAt(name[1..])
  }

  function FlagOf(s: string): Flag
    requires |s| >= 2 && IsDash(s) && s != "--"
  {
    var name := s[if s[1] == '-' then 2 else 1..];
    if name[0] == '-' || name[0] == '=' then Malformed
    else
      var eq := EqualsAt(name);
      if eq < |name| then Flag(name[..eq], Some(name[eq + 1..])) else Flag(name, None)
  }

  /** parseOne once the first argument is known to be a flag. */
  function ParseOne(formal: set<string>, args: seq<string>): (one: One)
    requires args != [] && |args[0]| >= 2 && IsDash(args[0]) && args[0] != "--"
    ensures one.Took? ==> 1 <= one.n <= |args|
  {
    var flag := FlagOf(args[0]);
    if flag.Malformed? then Bad(BadSyntax(args[0]))
    else if flag.name !in formal then Bad(if flag.name == "help" || flag.name == "h" then Help else Undefined(flag.name))
    else if flag.value.Some? then Took(Assignment(flag.name, flag.value.value), 1)
    else if |args| > 1 then Took(Assignment(flag.name, args[1]), 2)
    else Bad(NeedsArgument(flag.name))
  }

  /** FlagSet.Parse: flags first, up to the first argument that is none, or past a "--". */
  function ParseFirst(formal: set<string>, args: seq<string>): Parse
    decreases |args|
  {
    if args == [] || |args[0]| < 2 || !IsDash(args[0]) then Parsed([], args)
    else if args[0] == "--" then Parsed([], args[1..])
    else
      match ParseOne(formal, args)
      case Bad(e) => Failed([], e)
      case Took(a, n) => SetFlag(ParseFirst(formal, args[n..]), a)
  }

  /** What a user means: the same flags, wherever they stand among the positionals. */
  function ParseAnywhere(formal: set<string>, args: seq<string>): Parse
    decreases |args|
  {
    if args == [] then Parsed([], [])
    else if |args[0]| < 2 || !IsDash(args[0]) then
      var p := ParseAnywhere(formal, args[1..]);
      if p.Parsed? then Parsed(p.settings, [args[0]] + p.rest) else p
    else if args[0] == "--" then Parsed([], args[1..])
    else
      match ParseOne(formal, args)
      case Bad(e) => Failed([], e)
      case Took(a, n) => SetFlag(ParseAnywhere(formal, args[n..]), a)
  }

  predicate CleanAt(args: seq<string>, k: nat)
    requires k < |args|
  {
    IsDash(args[k]) ==>
      args[k] != "-" && args[k] != "--" && ('=' in args[k] || (k + 1 < |args| && !IsDash(args[k + 1])))
  }

  /** Every argument that looks like a flag is neither - nor --, and has its value with it or right behind it. */
  predicate Clean(args: seq<string>) {
    forall k :: 0 <= k < |args| ==> CleanAt(args, k)
  }

  lemma CleanDrop(args: seq<string>, n: nat)
    requires Clean(args) && n <= |args|
    ensures Clean(args[n..])
  {
    forall k | 0 <= k < |args[n..]|
      ensures CleanAt(args[n..], k)
    {
      assert CleanAt(args, n + k);
    }
  }

  /** In a clean list a flag uses exactly its group, whatever comes behind the group. */
  lemma OneGroup(formal: set<string>, args: seq<string>, tail: seq<string>)
    requires Clean(args) && args != [] && IsDash(args[0])
    requires |tail| >= GroupSize(args) && tail[..GroupSize(args)] == args[..GroupSize(args)]
    ensures |args[0]| >= 2 && args[0] != "--" && tail[0] == args[0]
    ensures ParseOne(formal, args).Took? ==> ParseOne(formal, args).n == GroupSize(args)
    ensures ParseOne(formal, tail) == ParseOne(formal, args)
  {
    var s := args[0];
    assert CleanAt(args, 0);
    assert |s| == 1 ==> s == "-";
    assert tail[0] == tail[..GroupSize(args)][0] == s;
    var d := if s[1] == '-' then 2 else 1;
    var name := s[d..];
    assert s == s[..d] + name;
    assert '=' in s <==> '=' in name;
    if '=' !in s {
      assert GroupSize(args) == 2 && tail[1] == tail[..2][1] == args[1];
    }
  }

  /** Parse b after parse a has gone well. */
  function Continue(a: Parse, b: Parse): Parse {
    match a
    case Failed(_, _) => a
    case Parsed(s, _) =>
      match b
      case Parsed(t, r) => Parsed(s + t, r)
      case Failed(t, e) => Failed(s + t, e)
  }

  lemma ContinueSet(a: Assignment, p: Parse, b: Parse)
    ensures Continue(SetFlag(p, a), b) == SetFlag(Continue(p, b), a)
  {
    if p.Parsed? {
      Assoc([a], p.settings, b.settings);
    }
  }

  /** One step of both parsers over a flag group. */
  lemma FlagStep(formal: set<string>, args: seq<string>, behind: seq<string>, after: Parse)
    requires Clean(args) && args != [] && IsDash(args[0])
    requires ParseFirst(formal, behind) == Continue(ParseAnywhere(formal, args[GroupSize(args)..]), after)
    ensures ParseFirst(formal, args[..GroupSize(args)] + behind) == Continue(ParseAnywhere(formal, args), after)
    ensures ParseAnywhere(formal, args).Parsed? ==> ParseAnywhere(formal, args[GroupSize(args)..]).Parsed?
    ensures ParseAnywhere(formal, args).Parsed? ==>
              ParseAnywhere(formal, args).rest == ParseAnywhere(formal, args[GroupSize(args)..]).rest
  {
    var n := GroupSize(args);
    var all := args[..n] + behind;
    assert all[..n] == args[..n] && all[n..] == behind;
    OneGroup(formal, args, all);
    var one := ParseOne(formal, args);
    if one.Took? {
      ContinueSet(one.a, ParseAnywhere(formal, args[n..]), after);
    }
  }

  lemma ContinueNone(b: Parse)
    ensures Continue(Parsed([], []), b) == b
  {
    assert [] + b.settings == b.settings;
  }

  /** One step of both parsers over a positional. */
  lemma PositionalStep(formal: set<string>, args: seq<string>, after: Parse)
    requires args != [] && !IsDash(args[0])
    ensures Continue(ParseAnywhere(formal, args), after) == Continue(ParseAnywhere(formal, args[1..]), after)
    ensures ParseAnywhere(formal, args).Parsed? ==>
              ParseAnywhere(formal, args[1..]).Parsed? &&
              ParseAnywhere(formal, args).rest == [args[0]] + ParseAnywhere(formal, args[1..]).rest
  {}

  /** Parsing the flags of a clean list sets what the user means, and goes on with whatever is put behind them. */
  lemma {:induction false} FlagsKeepMeaning(formal: set<string>, args: seq<string>, tail: seq<string>)
    requires Clean(args)
    ensures ParseFirst(formal, FlagPart(args) + tail) == Continue(ParseAnywhere(formal, args), ParseFirst(formal, tail))
    ensures ParseAnywhere(formal, args).Parsed? ==> ParseAnywhere(formal, args).rest == PosPart(args)
    decreases |args|
  {
    if args == [] {
      assert FlagPart(args) + tail == tail;
      ContinueNone(ParseFirst(formal, tail));
    } else {
      var n := GroupSize(args);
      CleanDrop(args, n);
      FlagsKeepMeaning(formal, args[n..], tail);
      PartsOf(args);
      if IsDash(args[0]) {
        Assoc(args[..n], FlagPart(args[n..]), tail);
        FlagStep(formal, args, FlagPart(args[n..]) + tail, ParseFirst(formal, tail));
      } else {
        assert args[..n] == [args[0]];
        PositionalStep(formal, args, ParseFirst(formal, tail));
      }
    }
  }

  /** Reordering preserves meaning: on every clean list, for every set of defined flags, Go's flags-first parser
      makes of the reordered arguments what a flags-anywhere parser makes of the given ones: the same assignments
      in the same order, the same positionals, or the same error at the same place. */
  lemma ReorderKeepsMeaning(formal: set<string>, args: seq<string>)
    requires Clean(args)
    ensures ParseFirst(formal, Reorder(args)) == ParseAnywhere(formal, args)
  {
    PartsShape(args);
    FlagsKeepMeaning(formal, args, PosPart(args));
  }

  // ---------- Where the condition fails ----------

  /** Parse b of what stands behind the arguments of parse a. */
  function Both(a: Parse, b: Parse): Parse {
    if a.Failed? then a
    else if b.Failed? then Failed(a.settings + b.settings, b.error)
    else Parsed(a.settings + b.settings, a.rest + b.rest)
  }

  lemma BothSet(a: Assignment, p: Parse, b: Parse)
    ensures Both(SetFlag(p, a), b) == SetFlag(Both(p, b), a)
  {
    if p.Parsed? {
      Assoc([a], p.settings, b.settings);
    }
  }

  lemma GroupBehind(front: seq<string>, tail: seq<string>)
    requires Clean(front) && front != []
    ensures var n, all := GroupSize(front), front + tail;
            GroupSize(all) == n && all[..n] == front[..n] && all[n..] == front[n..] + tail && all[0] == front[0]
  {
    assert CleanAt(front, 0);
  }

  /** A clean list keeps its groups whatever comes behind it. */
  lemma {:induction false} PartsBehind(front: seq<string>, tail: seq<string>)
    requires Clean(front)
    ensures FlagPart(front + tail) == FlagPart(front) + FlagPart(tail)
    ensures PosPart(front + tail) == PosPart(front) + PosPart(tail)
  {
    if front == [] {
      assert front + tail == tail;
      assert [] + FlagPart(tail) == FlagPart(tail) && [] + PosPart(tail) == PosPart(tail);
    } else {
      var n := GroupSize(front);
      CleanDrop(front, n);
      PartsBehind(front[n..], tail);
      GroupBehind(front, tail);
      PartsOf(front);
      PartsOf(front + tail);
      Assoc(front[..n], FlagPart(front[n..]), FlagPart(tail));
      Assoc(front[..n], PosPart(front[n..]), PosPart(tail));
    }
  }

  /** And its meaning. */
  lemma {:induction false} AnywhereBehind(formal: set<string>, front: seq<string>, tail: seq<string>)
    requires Clean(front)
    ensures ParseAnywhere(formal, front + tail) == Both(ParseAnywhere(formal, front), ParseAnywhere(formal, tail))
    decreases |front|
  {
    var all := front + tail;
    if front == [] {
      assert all == tail;
    } else {
      var n := GroupSize(front);
      assert all[0] == front[0] && all[n..] == front[n..] + tail && all[..n] == front[..n];
      CleanDrop(front, n);
      AnywhereBehind(formal, front[n..], tail);
      if IsDash(front[0]) {
        OneGroup(formal, front, all);
        var one := ParseOne(formal, front);
        if one.Took? {
          BothSet(one.a, ParseAnywhere(formal, front[n..]), ParseAnywhere(formal, tail));
        }
      } else {
        assert |front[0]| < 2 || !IsDash(front[0]);
        var meant, more := ParseAnywhere(formal, front[n..]), ParseAnywhere(formal, tail);
        if meant.Parsed? && more.Parsed? {
          Assoc([front[0]], meant.rest, more.rest);
        }
      }
    }
  }

  /** Reordering a clean list with more behind it, and parsing both ways. */
  lemma BothWays(formal: set<string>, front: seq<string>, tail: seq<string>)
    requires Clean(front)
    ensures ParseAnywhere(formal, front + tail) == Both(ParseAnywhere(formal, front), ParseAnywhere(formal, tail))
    ensures ParseFirst(formal, Reorder(front + tail)) ==
            Continue(ParseAnywhere(formal, front), ParseFirst(formal, FlagPart(tail) + (PosPart(front) + PosPart(tail))))
    ensures ParseAnywhere(formal, front).Parsed? ==> ParseAnywhere(formal, front).rest == PosPart(front)
    ensures NoDash(PosPart(front))
  {
    PartsShape(front);
    PartsBehind(front, tail);
    AnywhereBehind(formal, front, tail);
    Assoc(FlagPart(front), FlagPart(tail), PosPart(front) + PosPart(tail));
    FlagsKeepMeaning(formal, front, FlagPart(tail) + (PosPart(front) + PosPart(tail)));
  }

  /** A defined flag without a value of its own. */
  predicate Valueless(formal: set<string>, f: string) {
    |f| >= 2 && IsDash(f) && f != "--" && FlagOf(f).Flag? && FlagOf(f).value == None && FlagOf(f).name in formal
  }

  lemma NoFlags(formal: set<string>, p: seq<string>)
    requires NoDash(p)
    ensures ParseFirst(formal, p) == Parsed([], p)
  {}

  lemma TakesFirst(formal: set<string>, all: seq<string>)
    requires |all| > 1 && Valueless(formal, all[0])
    ensures ParseOne(formal, all) == Took(Assignment(FlagOf(all[0]).name, all[1]), 2)
  {}

  lemma FlagFirst(formal: set<string>, all: seq<string>, a: Assignment)
    requires |all| > 1 && |all[0]| >= 2 && IsDash(all[0]) && all[0] != "--" && ParseOne(formal, all) == Took(a, 2)
    ensures ParseFirst(formal, all) == SetFlag(ParseFirst(formal, all[2..]), a)
  {}

  lemma SecondOn<T>(f: T, p: seq<T>)
    requires p != []
    ensures ([f] + p)[0] == f && ([f] + p)[1] == p[0] && ([f] + p)[2..] == p[1..]
  {}

  lemma SetOnNone(a: Assignment, r: seq<string>)
    ensures SetFlag(Parsed([], r), a) == Parsed([a], r)
  {
    assert [a] + [] == [a];
  }

  /** A flag that lacks its value, in front of positionals. */
  lemma Swallows(formal: set<string>, all: seq<string>)
    requires |all| > 1 && Valueless(formal, all[0]) && NoDash(all[2..])
    ensures ParseFirst(formal, all) == Parsed([Assignment(FlagOf(all[0]).name, all[1])], all[2..])
  {
    var a := Assignment(FlagOf(all[0]).name, all[1]);
    TakesFirst(formal, all);
    FlagFirst(formal, all, a);
    NoFlags(formal, all[2..]);
    SetOnNone(a, all[2..]);
  }

  lemma Singleton(f: string)
    requires IsDash(f)
    ensures FlagPart([f]) == [f] && PosPart([f]) == []
  {
    assert [f][1..] == [];
  }

  /** What comes behind arguments that parse, when it sets nothing. */
  lemma NothingSet(m: Parse, e: FlagError, r: seq<string>)
    requires m.Parsed?
    ensures Both(m, Failed([], e)) == Continue(m, Failed([], e)) == Failed(m.settings, e)
    ensures Both(m, Parsed([], r)) == Parsed(m.settings, m.rest + r) && Continue(m, Parsed([], r)) == Parsed(m.settings, r)
  {
    assert m.settings + [] == m.settings;
  }

  lemma AloneFails(formal: set<string>, f: string)
    requires Valueless(formal, f)
    ensures ParseFirst(formal, [f]) == ParseAnywhere(formal, [f]) == Failed([], NeedsArgument(FlagOf(f).name))
  {
    assert ParseOne(formal, [f]) == Bad(NeedsArgument(FlagOf(f).name));
  }

  /** Both parses of a clean list with a flag that lacks its value at the end. */
  lemma TrailingFlag(formal: set<string>, front: seq<string>, f: string)
    requires Clean(front) && ParseAnywhere(formal, front).Parsed? && Valueless(formal, f)
    ensures ParseAnywhere(formal, front + [f]) ==
            Failed(ParseAnywhere(formal, front).settings, NeedsArgument(FlagOf(f).name))
    ensures ParseFirst(formal, Reorder(front + [f])) ==
            Continue(ParseAnywhere(formal, front), ParseFirst(formal, [f] + PosPart(front)))
    ensures NoDash(PosPart(front))
  {
    Singleton(f);
    BothWays(formal, front, [f]);
    AloneFails(formal, f);
    NothingSet(ParseAnywhere(formal, front), NeedsArgument(FlagOf(f).name), []);
    assert PosPart(front) + [] == PosPart(front);
  }

  /** A defined flag that comes last, without its value, behind a clean list that parses: the meaning, an error,
      is kept if and only if there are no positionals; otherwise the flag swallows the first of them. */
  lemma TrailingFlagIff(formal: set<string>, front: seq<string>, f: string)
    requires Clean(front) && ParseAnywhere(formal, front).Parsed? && Valueless(formal, f)
    ensures ParseFirst(formal, Reorder(front + [f])) == ParseAnywhere(formal, front + [f]) <==> PosPart(front) == []
    ensures ParseAnywhere(formal, front + [f]) ==
            Failed(ParseAnywhere(formal, front).settings, NeedsArgument(FlagOf(f).name))
    ensures PosPart(front) != [] ==>
              ParseFirst(formal, Reorder(front + [f])) ==
              Parsed(ParseAnywhere(formal, front).settings + [Assignment(FlagOf(f).name, PosPart(front)[0])],
                     PosPart(front)[1..])
  {
    var p := PosPart(front);
    TrailingFlag(formal, front, f);
    if p == [] {
      assert [f] + p == [f];
      AloneFails(formal, f);
      NothingSet(ParseAnywhere(formal, front), NeedsArgument(FlagOf(f).name), []);
    } else {
      SecondOn(f, p);
      Swallows(formal, [f] + p);
    }
  }

  /** For instance: -port at the end takes the URL for its value. */
  lemma TrailingPort()
    ensures ParseAnywhere({"port"}, ["u"] + ["-port"]) == Failed([], NeedsArgument("port"))
    ensures ParseFirst({"port"}, Reorder(["u"] + ["-port"])) == Parsed([] + [Assignment("port", "u")], [])
  {
    var f, name := "-port", "port";
    assert f[1..] == name;
    assert '=' !in name;
    assert FlagOf(f) == Flag(name, None);
    assert ["u"][1..] == [] && "u"[..1][0] == 'u' && !IsDash("u");
    assert ParseAnywhere({"port"}, ["u"]) == Parsed([], ["u"]);
    PositionalsKept(["u"]);
    TrailingFlagIff({"port"}, ["u"], f);
  }
}
