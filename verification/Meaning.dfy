/** Exactly when reordering keeps the meaning of an argument list, for every list and every set of defined flags. */
module Meaning {
  import opened Text
  import opened Args
  import opened Flags

  // ---------- Lists reordering leaves alone ----------

  /** All flag groups stand in front of all positionals. */
  predicate InOrder(args: seq<string>)
    decreases |args|
  {
    NoDash(args) || (IsDash(args[0]) && InOrder(args[GroupSize(args)..]))
  }

  lemma {:induction false} NoFlagPartIff(args: seq<string>)
    ensures FlagPart(args) == [] <==> NoDash(args)
    ensures NoDash(args) ==> PosPart(args) == args
  {
    if args == [] {
    } else if IsDash(args[0]) {
      PartsOf(args);
      ConcatHead(args[..GroupSize(args)], FlagPart(args[GroupSize(args)..]));
    } else {
      NoFlagPartIff(args[1..]);
      PartsOf(args);
      TakeOne(args);
      NoDashTail(args);
      Uncons(args);
    }
  }

  lemma NoDashTail(args: seq<string>)
    requires args != [] && !IsDash(args[0])
    ensures NoDash(args) <==> NoDash(args[1..])
  {
    assert forall k :: 1 <= k < |args| ==> args[k] == args[1..][k - 1];
  }

  lemma Uncons<T>(s: seq<T>)
    requires s != []
    ensures s == [s[0]] + s[1..]
  {}

  lemma GroupThenRest(args: seq<string>)
    requires args != [] && IsDash(args[0])
    ensures var n := GroupSize(args);
            args == args[..n] + args[n..] && Reorder(args) == args[..n] + Reorder(args[n..])
  {
    var n := GroupSize(args);
    PartsOf(args);
    Assoc(args[..n], FlagPart(args[n..]), PosPart(args[n..]));
  }

  /** reorderArgs changes nothing if and only if the list is in order. */
  lemma {:induction false} InOrderIff(args: seq<string>)
    ensures Reorder(args) == args <==> InOrder(args)
    decreases |args|
  {
    NoFlagPartIff(args);
    if NoDash(args) {
      assert [] + args == args;
    } else if IsDash(args[0]) {
      var n := GroupSize(args);
      GroupThenRest(args);
      InOrderIff(args[n..]);
      SameFront(args[..n], Reorder(args[n..]), args[n..]);
    } else {
      FlagPartStarts(args);
      assert Reorder(args)[0] == FlagPart(args)[0];
    }
  }

  lemma SameFront<T>(a: seq<T>, b: seq<T>, c: seq<T>)
    ensures a + b == a + c <==> b == c
  {
    assert (a + b)[|a|..] == b && (a + c)[|a|..] == c;
  }

  lemma SameBehind<T>(a: seq<T>, b: seq<T>, c: seq<T>)
    requires |a| == |b|
    ensures a + c == b + c <==> a == b
  {
    assert (a + c)[..|a|] == a && (b + c)[..|b|] == b;
  }

  // ---------- The condition ----------

  /** No argument that looks like a flag, except a lone -. */
  predicate FlagFree(args: seq<string>) {
    forall k :: 0 <= k < |args| && IsDash(args[k]) ==> args[k] == "-"
  }

  /** w and r stand behind the positionals p, and reordering takes w in front of them. */
  predicate MovesUnseen(p: seq<string>, w: string, r: seq<string>) {
    NoDash(r) && p + [w] == [w] + p
  }

  /** The second argument looks like a flag, and the third like its value. */
  predicate PairBehind(args: seq<string>) {
    |args| > 2 && IsDash(args[1]) && '=' !in args[1] && !IsDash(args[2])
  }

  lemma PairIff(args: seq<string>)
    requires |args| > 1
    ensures PairBehind(args) <==> TakesNext(args[1..])
  {
    assert args[1..][0] == args[1] && (|args| > 2 ==> args[1..][1] == args[2]);
  }

  /** The condition, read off the list from left to right.  p: the positionals so far.  Reading stops at a flag that
      is malformed or not defined, which fails both ways, and at the first argument reordering may misplace: a -, a
      --, a defined flag at the end without its value, or one whose value itself looks like a flag and is taken to
      have a value. */
  predicate Kept(formal: set<string>, p: seq<string>, args: seq<string>)
    decreases |args|
  {
    if args == [] then true
    else if !IsDash(args[0]) then Kept(formal, p + [args[0]], args[1..])
    else if args[0] == "-" then p == [] && FlagFree(args) && InOrder(args)
    else if args[0] == "--" then
      if p == [] then InOrder(args) else args[1..] == [] || MovesUnseen(p, args[1], args[1..])
    else if FlagOf(args[0]).Malformed? || FlagOf(args[0]).name !in formal then true
    else if FlagOf(args[0]).value.Some? then Kept(formal, p, args[1..])
    else if |args| == 1 then p == []
    else if !PairBehind(args) then Kept(formal, p, args[2..])
    else if p == [] then FlagFree(args[3..]) && InOrder(args[3..])
    else MovesUnseen(p, args[2], args[3..])
  }

  /** A flag that fails to parse whatever comes behind it. */
  predicate Refused(formal: set<string>, f: string) {
    |f| >= 2 && IsDash(f) && f != "--" && (FlagOf(f).Malformed? || FlagOf(f).name !in formal)
  }

  /** A defined flag with its value behind an equals sign. */
  predicate WithValue(formal: set<string>, f: string) {
    |f| >= 2 && IsDash(f) && f != "--" && FlagOf(f).Flag? && FlagOf(f).name in formal && FlagOf(f).value.Some?
  }

  lemma FlagKinds(formal: set<string>, f: string)
    requires IsDash(f) && f != "-" && f != "--"
    ensures Refused(formal, f) || WithValue(formal, f) || Valueless(formal, f)
  {
    DashSize(f);
  }

  // The condition, one kind of flag at a time.

  lemma KeptRefused(formal: set<string>, p: seq<string>, f: string, args: seq<string>)
    requires args != [] && args[0] == f && Refused(formal, f)
    ensures Kept(formal, p, args)
  {}

  lemma KeptWithValue(formal: set<string>, p: seq<string>, f: string, args: seq<string>)
    requires args != [] && args[0] == f && WithValue(formal, f)
    ensures Kept(formal, p, args) == Kept(formal, p, args[1..])
  {}

  lemma KeptLast(formal: set<string>, p: seq<string>, f: string, args: seq<string>)
    requires |args| == 1 && args[0] == f && Valueless(formal, f)
    ensures Kept(formal, p, args) == (p == [])
  {}

  lemma KeptValue(formal: set<string>, p: seq<string>, f: string, args: seq<string>)
    requires |args| > 1 && args[0] == f && Valueless(formal, f) && !PairBehind(args)
    ensures Kept(formal, p, args) == Kept(formal, p, args[2..])
  {}

  lemma KeptDashValue(formal: set<string>, p: seq<string>, f: string, args: seq<string>)
    requires PairBehind(args) && args[0] == f && Valueless(formal, f)
    ensures Kept(formal, p, args) ==
            if p == [] then FlagFree(args[3..]) && InOrder(args[3..]) else MovesUnseen(p, args[2], args[3..])
  {}

  lemma DashSize(s: string)
    requires IsDash(s) && s != "-"
    ensures |s| >= 2
  {
    assert s[..|s|] == s;
  }

  // ---------- Proof ----------

  /** A parse with positionals put in front of the others. */
  function Ahead(p: seq<string>, m: Parse): Parse {
    if m.Parsed? then Parsed(m.settings, p + m.rest) else m
  }

  /** The reordered list, with p in front of the positionals. */
  function Given(p: seq<string>, args: seq<string>): seq<string> {
    FlagPart(args) + (p + PosPart(args))
  }

  /** The meaning is kept. */
  predicate Same(formal: set<string>, p: seq<string>, args: seq<string>) {
    ParseFirst(formal, Given(p, args)) == Ahead(p, ParseAnywhere(formal, args))
  }

  lemma NoDashOne(p: seq<string>, a: string)
    requires NoDash(p) && !IsDash(a)
    ensures NoDash(p + [a])
  {}

  lemma PositionalSame(formal: set<string>, p: seq<string>, args: seq<string>)
    requires args != [] && !IsDash(args[0])
    ensures Same(formal, p, args) <==> Same(formal, p + [args[0]], args[1..])
  {
    PartsOf(args);
    assert args[..1] == [args[0]];
    Assoc(p, [args[0]], PosPart(args[1..]));
    var m := ParseAnywhere(formal, args[1..]);
    if m.Parsed? {
      Assoc(p, [args[0]], m.rest);
    }
  }

  /** The head of a reordered list that starts with a flag. */
  lemma GivenHead(p: seq<string>, args: seq<string>)
    requires args != [] && IsDash(args[0])
    ensures |Given(p, args)| > 0 && Given(p, args)[0] == args[0]
    ensures FlagPart(args) != [] && Given(p, args)[1..] == FlagPart(args)[1..] + (p + PosPart(args))
  {
    PartsOf(args);
    var n := GroupSize(args);
    ConcatHead(args[..n], FlagPart(args[n..]));
    ConcatHead(FlagPart(args), p + PosPart(args));
  }

  /** Parsing anywhere sets nothing and drops nothing if and only if the list is free of flags. */
  lemma {:induction false} PlainIff(formal: set<string>, r: seq<string>)
    ensures var m := ParseAnywhere(formal, r);
            && (m.Parsed? ==> |m.rest| <= |r|)
            && (m.Parsed? && m.settings == [] && |m.rest| == |r| <==> FlagFree(r))
            && (FlagFree(r) ==> m == Parsed([], r))
    decreases |r|
  {
    if r == [] {
    } else if !IsDash(r[0]) || r[0] == "-" {
      PlainIff(formal, r[1..]);
      assert r == [r[0]] + r[1..];
      FlagFreeMore(r);
    } else if r[0] == "--" {
    } else {
      var one := ParseOne(formal, r);
      if one.Took? {
        PlainIff(formal, r[one.n..]);
      }
    }
  }

  lemma FlagFreeMore(r: seq<string>)
    requires r != [] && (!IsDash(r[0]) || r[0] == "-")
    ensures FlagFree(r) <==> FlagFree(r[1..])
  {
    assert forall k :: 1 <= k < |r| ==> r[k] == r[1..][k - 1];
  }

  /** Nothing set: the same list is left over if and only if there is no flag and the list is in order. */
  lemma OrderedIff(formal: set<string>, r: seq<string>)
    ensures ParseAnywhere(formal, r) == Parsed([], Reorder(r)) <==> FlagFree(r) && InOrder(r)
  {
    PlainIff(formal, r);
    InOrderIff(r);
    ReorderSize(r);
  }

  lemma ReorderSize(r: seq<string>)
    ensures |Reorder(r)| == |r|
  {
    ReorderPermutes(r);
    assert |multiset(Reorder(r))| == |multiset(r)|;
  }

  lemma LoneDashSame(formal: set<string>, p: seq<string>, args: seq<string>)
    requires NoDash(p) && args != [] && args[0] == "-"
    ensures ParseFirst(formal, Given(p, args)) == Parsed([], Given(p, args))
    ensures Same(formal, p, args) <==> p == [] && FlagFree(args) && InOrder(args)
  {
    GivenHead(p, args);
    var m := ParseAnywhere(formal, args);
    if p == [] {
      assert [] + PosPart(args) == PosPart(args);
      OrderedIff(formal, args);
      assert m.Parsed? ==> [] + m.rest == m.rest;
    } else {
      assert m.Parsed? ==> (p + m.rest)[0] == p[0];
    }
  }

  /** Taking w in front of the positionals p, and whatever flags are behind it. */
  lemma Swap(p: seq<string>, w: string, r: seq<string>, left: seq<string>)
    requires NoDash(p) && p != [] && !IsDash(w)
    requires NoDash(r) ==> left == r
    ensures [w] + (FlagPart(r) + (p + PosPart(r))) == p + ([w] + left) <==> MovesUnseen(p, w, r)
  {
    NoFlagPartIff(r);
    if NoDash(r) {
      assert [] + (p + r) == p + r;
      Assoc([w], p, r);
      Assoc(p, [w], r);
      SameBehind([w] + p, p + [w], r);
    } else {
      FlagPartStarts(r);
      var x, y := [w] + (FlagPart(r) + (p + PosPart(r))), p + ([w] + left);
      assert x[1] == FlagPart(r)[0];
      assert y[1] == if |p| == 1 then w else p[1];
    }
  }

  lemma DoubleDashParts(args: seq<string>)
    requires args != [] && args[0] == "--"
    ensures var rest := args[1..];
            var takes := rest != [] && !IsDash(rest[0]);
            && FlagPart(args)[1..] == (if takes then [rest[0]] + FlagPart(rest[1..]) else FlagPart(rest))
            && PosPart(args) == if takes then PosPart(rest[1..]) else PosPart(rest)
  {
    PartsOf(args);
    var n := GroupSize(args);
    if n == 2 {
      assert args[..2] == [args[0]] + [args[1]];
      Assoc([args[0]], [args[1]], FlagPart(args[2..]));
      assert args[1..][1..] == args[2..];
    } else {
      assert args[..1] == [args[0]];
    }
  }

  lemma DoubleDashParses(formal: set<string>, x: seq<string>)
    requires x != [] && x[0] == "--"
    ensures ParseFirst(formal, x) == ParseAnywhere(formal, x) == Parsed([], x[1..])
  {}

  lemma DoubleDashSame(formal: set<string>, p: seq<string>, args: seq<string>)
    requires NoDash(p) && args != [] && args[0] == "--"
    ensures ParseFirst(formal, Given(p, args)) == Parsed([], FlagPart(args)[1..] + (p + PosPart(args)))
    ensures Same(formal, p, args) <==>
            if p == [] then InOrder(args) else args[1..] == [] || MovesUnseen(p, args[1], args[1..])
  {
    GivenHead(p, args);
    DoubleDashParses(formal, Given(p, args));
    DoubleDashParses(formal, args);
    if p == [] {
      DoubleDashFirst(args);
    } else {
      DoubleDashParts(args);
      DoubleDashBehind(p, args[1..], FlagPart(args)[1..] + (p + PosPart(args)));
    }
  }

  lemma DoubleDashFirst(args: seq<string>)
    requires args != [] && args[0] == "--" && FlagPart(args) != []
    ensures FlagPart(args)[1..] + ([] + PosPart(args)) == [] + args[1..] <==> InOrder(args)
  {
    GivenHead([], args);
    var x := FlagPart(args)[1..] + PosPart(args);
    assert [] + PosPart(args) == PosPart(args) && [] + args[1..] == args[1..];
    InOrderIff(args);
    Uncons(Reorder(args));
    Uncons(args);
    SameHead("--", x, args[1..]);
  }

  lemma DoubleDashBehind(p: seq<string>, rest: seq<string>, x: seq<string>)
    requires NoDash(p) && p != []
    requires var takes := rest != [] && !IsDash(rest[0]);
             x == if takes then ([rest[0]] + FlagPart(rest[1..])) + (p + PosPart(rest[1..]))
                  else FlagPart(rest) + (p + PosPart(rest))
    ensures x == p + rest <==> rest == [] || MovesUnseen(p, rest[0], rest)
  {
    if rest == [] {
      assert x == p + rest;
    } else if IsDash(rest[0]) {
      PartsOf(rest);
      assert x[0] == rest[0] && (p + rest)[0] == p[0];
    } else {
      Assoc([rest[0]], FlagPart(rest[1..]), p + PosPart(rest[1..]));
      Swap(p, rest[0], rest[1..], rest[1..]);
      Uncons(rest);
      NoDashTail(rest);
    }
  }

  lemma SetInjective(a: Assignment, m: Parse, n: Parse)
    ensures SetFlag(m, a) == SetFlag(n, a) <==> m == n
  {
    SameFront([a], m.settings, n.settings);
  }

  lemma SetAhead(p: seq<string>, m: Parse, a: Assignment)
    ensures Ahead(p, SetFlag(m, a)) == SetFlag(Ahead(p, m), a)
  {}

  /** Both parsers use the same n arguments for the first flag. */
  lemma StepSame(formal: set<string>, p: seq<string>, args: seq<string>, a: Assignment, behind: seq<string>)
    requires args != [] && IsDash(args[0]) && |args[0]| >= 2 && args[0] != "--"
    requires ParseOne(formal, args).Took? && ParseOne(formal, args).a == a
    requires Given(p, args) == args[..ParseOne(formal, args).n] + behind
    requires ParseOne(formal, Given(p, args)) == ParseOne(formal, args)
    ensures Same(formal, p, args) <==>
            ParseFirst(formal, behind) == Ahead(p, ParseAnywhere(formal, args[ParseOne(formal, args).n..]))
  {
    var n, all := ParseOne(formal, args).n, Given(p, args);
    GivenHead(p, args);
    assert all[n..] == behind;
    var meant := ParseAnywhere(formal, args[n..]);
    SetAhead(p, meant, a);
    SetInjective(a, ParseFirst(formal, behind), Ahead(p, meant));
  }

  lemma RefusedSame(formal: set<string>, p: seq<string>, args: seq<string>)
    requires args != [] && Refused(formal, args[0])
    ensures Same(formal, p, args)
  {
    GivenHead(p, args);
  }

  lemma WithValueSame(formal: set<string>, p: seq<string>, args: seq<string>)
    requires args != [] && WithValue(formal, args[0])
    ensures Same(formal, p, args) <==> Same(formal, p, args[1..])
  {
    var flag := FlagOf(args[0]);
    GivenHead(p, args);
    ValueIff(args[0]);
    PartsOf(args);
    TakeOne(args);
    Assoc([args[0]], FlagPart(args[1..]), p + PosPart(args[1..]));
    StepSame(formal, p, args, Assignment(flag.name, flag.value.value), Given(p, args[1..]));
  }

  /** A flag has its value with it if and only if it has an equals sign. */
  lemma ValueIff(s: string)
    requires |s| >= 2 && IsDash(s) && s != "--" && FlagOf(s).Flag?
    ensures FlagOf(s).value.Some? <==> '=' in s
  {
    var d := if s[1] == '-' then 2 else 1;
    var name := s[d..];
    assert s == s[..d] + name;
    assert s[0] == s[..1][0] == '-';
    assert '=' in s <==> '=' in name;
  }

  lemma Regroup<T>(a: seq<T>, b: seq<T>, f: seq<T>, t: seq<T>)
    ensures (a + (b + f)) + t == (a + b) + (f + t)
  {}

  lemma FirstTwo<T>(a: T, b: T, c: seq<T>)
    ensures |([a] + [b]) + c| > 1 && (([a] + [b]) + c)[0] == a && (([a] + [b]) + c)[1] == b
  {}

  /** A flag whose value follows it, in the reordered list as well. */
  lemma ValueSame(formal: set<string>, p: seq<string>, args: seq<string>)
    requires |args| > 1 && Valueless(formal, args[0]) && !TakesNext(args[1..])
    ensures Same(formal, p, args) <==> Same(formal, p, args[2..])
  {
    ValueParts(args);
    Regroup([args[0]], [args[1]], FlagPart(args[2..]), p + PosPart(args[2..]));
    TwoUsed(formal, p, args, Given(p, args[2..]));
  }

  /** A flag and its value, whatever the value looks like. */
  lemma TwoUsed(formal: set<string>, p: seq<string>, args: seq<string>, behind: seq<string>)
    requires |args| > 1 && Valueless(formal, args[0])
    requires Given(p, args) == ([args[0]] + [args[1]]) + behind
    ensures Same(formal, p, args) <==> ParseFirst(formal, behind) == Ahead(p, ParseAnywhere(formal, args[2..]))
  {
    TakeTwo(args);
    FirstTwo(args[0], args[1], behind);
    TakesFirst(formal, args);
    TakesFirst(formal, Given(p, args));
    StepSame(formal, p, args, Assignment(FlagOf(args[0]).name, args[1]), behind);
  }

  lemma ValueParts(args: seq<string>)
    requires |args| > 1 && |args[0]| >= 2 && IsDash(args[0]) && args[0] != "--"
    requires FlagOf(args[0]).Flag? && FlagOf(args[0]).value == None && !TakesNext(args[1..])
    ensures FlagPart(args) == [args[0]] + ([args[1]] + FlagPart(args[2..])) && PosPart(args) == PosPart(args[2..])
  {
    ValueIff(args[0]);
    PartsOf(args);
    if IsDash(args[1]) {
      TakeOne(args);
      NextGroup(args);
    } else {
      TakeTwo(args);
      Assoc([args[0]], [args[1]], FlagPart(args[2..]));
    }
  }

  /** The second argument as a group of its own. */
  lemma NextGroup(args: seq<string>)
    requires |args| > 1 && IsDash(args[1]) && !TakesNext(args[1..])
    ensures FlagPart(args[1..]) == [args[1]] + FlagPart(args[2..]) && PosPart(args[1..]) == PosPart(args[2..])
  {
    PartsOf(args[1..]);
    TakeOne(args[1..]);
    DropDrop(args, 1, 1);
  }

  /** A flag whose value looks like a flag and is taken to have a value of its own. */
  lemma DashValueSame(formal: set<string>, p: seq<string>, args: seq<string>)
    requires NoDash(p) && |args| > 1 && Valueless(formal, args[0]) && TakesNext(args[1..])
    ensures |args| > 2 && !IsDash(args[2])
    ensures Same(formal, p, args) <==>
            if p == [] then FlagFree(args[3..]) && InOrder(args[3..]) else MovesUnseen(p, args[2], args[3..])
  {
    var w, r := args[2], args[3..];
    DashValueParts(args);
    Regroup([args[0]], [args[1]], [w] + FlagPart(r), p + PosPart(r));
    Assoc([w], FlagPart(r), p + PosPart(r));
    TwoUsed(formal, p, args, [w] + Given(p, r));
    Uncons(args[2..]);
    DropDrop(args, 2, 1);
    DashValueBehind(formal, p, w, r);
  }

  lemma DashValueParts(args: seq<string>)
    requires |args| > 1 && |args[0]| >= 2 && IsDash(args[0]) && args[0] != "--"
    requires FlagOf(args[0]).Flag? && FlagOf(args[0]).value == None && TakesNext(args[1..])
    ensures |args| > 2 && !IsDash(args[2])
    ensures FlagPart(args) == [args[0]] + ([args[1]] + ([args[2]] + FlagPart(args[3..])))
    ensures PosPart(args) == PosPart(args[3..])
  {
    ValueIff(args[0]);
    assert args[1..][1] == args[2];
    PartsOf(args);
    TakeOne(args);
    PartsOf(args[1..]);
    TakeTwo(args[1..]);
    DropDrop(args, 1, 2);
    Assoc([args[1]], [args[2]], FlagPart(args[3..]));
  }

  lemma DashValueBehind(formal: set<string>, p: seq<string>, w: string, r: seq<string>)
    requires NoDash(p) && !IsDash(w)
    ensures ParseFirst(formal, [w] + Given(p, r)) == Ahead(p, ParseAnywhere(formal, [w] + r)) <==>
            if p == [] then FlagFree(r) && InOrder(r) else MovesUnseen(p, w, r)
  {
    var x := [w] + Given(p, r);
    var m := ParseAnywhere(formal, r);
    assert ([w] + r)[1..] == r && x[0] == w;
    assert ParseFirst(formal, x) == Parsed([], x);
    if p == [] {
      assert [] + PosPart(r) == PosPart(r);
      OrderedIff(formal, r);
      if m.Parsed? {
        assert [] + ([w] + m.rest) == [w] + m.rest;
        SameHead(w, Reorder(r), m.rest);
      }
    } else {
      PlainIff(formal, r);
      assert NoDash(r) ==> FlagFree(r);
      if m.Parsed? {
        Swap(p, w, r, m.rest);
        assert m.settings != [] ==> !NoDash(r);
      }
    }
  }

  lemma LastSame(formal: set<string>, p: seq<string>, f: string)
    requires NoDash(p) && Valueless(formal, f)
    ensures Same(formal, p, [f]) <==> p == []
  {
    Singleton(f);
    AloneFails(formal, f);
    NoneBehind(p);
    if p == [] {
      NoneBehind([f]);
    } else {
      SecondOn(f, p);
      Swallows(formal, [f] + p);
    }
  }

  lemma NoneBehind<T>(p: seq<T>)
    ensures p + [] == p
  {}

  lemma NoneSame(formal: set<string>, p: seq<string>)
    requires NoDash(p)
    ensures Same(formal, p, [])
  {
    NoneBehind(p);
    assert [] + p == p;
    NoFlags(formal, p);
  }

  /** A last flag that lacks its value. */
  lemma LastIff(formal: set<string>, p: seq<string>, f: string)
    requires NoDash(p) && Valueless(formal, f)
    ensures Same(formal, p, [f]) == Kept(formal, p, [f])
  {
    KeptLast(formal, p, f, [f]);
    LastSame(formal, p, f);
  }

  /** A flag and its value, given the claim for what comes behind them. */
  lemma ValueIffKept(formal: set<string>, p: seq<string>, args: seq<string>)
    requires |args| > 1 && Valueless(formal, args[0]) && !PairBehind(args)
    requires Same(formal, p, args[2..]) == Kept(formal, p, args[2..])
    ensures Same(formal, p, args) == Kept(formal, p, args)
  {
    PairIff(args);
    KeptValue(formal, p, args[0], args);
    ValueSame(formal, p, args);
  }

  lemma DashValueIffKept(formal: set<string>, p: seq<string>, args: seq<string>)
    requires NoDash(p) && PairBehind(args) && Valueless(formal, args[0])
    ensures Same(formal, p, args) == Kept(formal, p, args)
  {
    PairIff(args);
    KeptDashValue(formal, p, args[0], args);
    DashValueSame(formal, p, args);
  }

  lemma {:induction false} SameIff(formal: set<string>, p: seq<string>, args: seq<string>)
    requires NoDash(p)
    ensures Same(formal, p, args) == Kept(formal, p, args)
    decreases |args|
  {
    if args == [] {
      NoneSame(formal, p);
    } else if !IsDash(args[0]) {
      PositionalSame(formal, p, args);
      NoDashOne(p, args[0]);
      SameIff(formal, p + [args[0]], args[1..]);
    } else if args[0] == "-" {
      LoneDashSame(formal, p, args);
    } else if args[0] == "--" {
      DoubleDashSame(formal, p, args);
    } else {
      FlagKinds(formal, args[0]);
      if Refused(formal, args[0]) {
        KeptRefused(formal, p, args[0], args);
        RefusedSame(formal, p, args);
      } else if WithValue(formal, args[0]) {
        SameIff(formal, p, args[1..]);
        KeptWithValue(formal, p, args[0], args);
        WithValueSame(formal, p, args);
      } else if |args| == 1 {
        TakeOne(args);
        assert args[..1] == args;
        LastIff(formal, p, args[0]);
      } else if PairBehind(args) {
        DashValueIffKept(formal, p, args);
      } else {
        SameIff(formal, p, args[2..]);
        ValueIffKept(formal, p, args);
      }
    }
  }

  // ---------- Main results ----------

  /** For every argument list and every set of defined flags: Go's flags-first parser makes of the reordered list
      what a flags-anywhere parser makes of the given one if and only if the condition holds. */
  lemma MeaningKeptIff(formal: set<string>, args: seq<string>)
    ensures ParseFirst(formal, Reorder(args)) == ParseAnywhere(formal, args) <==> Kept(formal, [], args)
  {
    SameIff(formal, [], args);
    assert [] + PosPart(args) == PosPart(args);
    var m := ParseAnywhere(formal, args);
    assert m.Parsed? ==> [] + m.rest == m.rest;
  }

  /** The condition passes over a clean list that parses, up to its positionals; a front that fails to parse keeps
      its error. */
  lemma {:induction false} KeptBehind(formal: set<string>, p: seq<string>, front: seq<string>, tail: seq<string>)
    requires Clean(front)
    ensures Kept(formal, p, front + tail) ==
            (ParseAnywhere(formal, front).Failed? || Kept(formal, p + PosPart(front), tail))
    decreases |front|
  {
    if front == [] {
      NoneBehind(p);
      assert front + tail == tail;
    } else {
      var n := GroupSize(front);
      GroupBehind(front, tail);
      CleanDrop(front, n);
      PartsOf(front);
      if IsDash(front[0]) {
        KeptBehind(formal, p, front[n..], tail);
        assert CleanAt(front, 0);
        FlagGroupKept(formal, p, front, tail);
        FlagGroupParse(formal, front);
      } else {
        KeptBehind(formal, p + [front[0]], front[1..], tail);
        TakeOne(front);
        Assoc(p, [front[0]], PosPart(front[1..]));
      }
    }
  }

  /** One flag group of a clean list. */
  lemma FlagGroupKept(formal: set<string>, p: seq<string>, front: seq<string>, tail: seq<string>)
    requires Clean(front) && front != [] && IsDash(front[0]) && front[0] != "-" && front[0] != "--"
    requires GroupSize(front + tail) == GroupSize(front) && (front + tail)[0] == front[0]
    requires (front + tail)[GroupSize(front)..] == front[GroupSize(front)..] + tail
    ensures Refused(formal, front[0]) ==> Kept(formal, p, front + tail)
    ensures !Refused(formal, front[0]) ==>
              Kept(formal, p, front + tail) == Kept(formal, p, front[GroupSize(front)..] + tail)
  {
    assert CleanAt(front, 0);
    var all := front + tail;
    FlagKinds(formal, front[0]);
    if Refused(formal, front[0]) {
      KeptRefused(formal, p, all[0], all);
    } else {
      ValueIff(front[0]);
      if WithValue(formal, front[0]) {
        KeptWithValue(formal, p, all[0], all);
      } else {
        assert all[1] == front[1];
        KeptValue(formal, p, all[0], all);
      }
    }
  }

  /** Its parse. */
  lemma FlagGroupParse(formal: set<string>, front: seq<string>)
    requires Clean(front) && front != [] && IsDash(front[0]) && front[0] != "-" && front[0] != "--"
    ensures Refused(formal, front[0]) ==> ParseAnywhere(formal, front).Failed?
    ensures !Refused(formal, front[0]) ==>
              (ParseAnywhere(formal, front).Failed? <==> ParseAnywhere(formal, front[GroupSize(front)..]).Failed?)
  {
    assert CleanAt(front, 0);
    FlagKinds(formal, front[0]);
    OneGroup(formal, front, front);
    if !Refused(formal, front[0]) {
      ValueIff(front[0]);
    }
  }

  /** Behind a clean list that parses, a lone - becomes the first positional: the meaning is kept if and only if it
      is the first one anyway, no flag follows, and the rest is in order. */
  lemma LoneDashIff(formal: set<string>, front: seq<string>, rest: seq<string>)
    requires Clean(front) && ParseAnywhere(formal, front).Parsed?
    ensures ParseFirst(formal, Reorder(front + (["-"] + rest))) == ParseAnywhere(formal, front + (["-"] + rest)) <==>
            PosPart(front) == [] && FlagFree(rest) && InOrder(["-"] + rest)
    ensures ParseFirst(formal, Reorder(front + (["-"] + rest))) ==
            Parsed(ParseAnywhere(formal, front).settings, Given(PosPart(front), ["-"] + rest))
  {
    var tail := ["-"] + rest;
    MeaningKeptIff(formal, front + tail);
    KeptBehind(formal, [], front, tail);
    assert [] + PosPart(front) == PosPart(front) && tail[1..] == rest;
    FlagFreeMore(tail);
    BothWays(formal, front, tail);
    LoneDashSame(formal, PosPart(front), tail);
    NothingSet(ParseAnywhere(formal, front), Help, Given(PosPart(front), tail));
  }

  /** Behind a clean list that parses, and before whatever is meant literally, a -- moves with the arguments that
      look like flags: the meaning is kept, without positionals in front, if and only if the rest is in order, and
      otherwise if and only if nothing follows or only positionals do and the exchange is not seen. */
  lemma DoubleDashIff(formal: set<string>, front: seq<string>, rest: seq<string>)
    requires Clean(front) && ParseAnywhere(formal, front).Parsed?
    ensures ParseFirst(formal, Reorder(front + (["--"] + rest))) == ParseAnywhere(formal, front + (["--"] + rest)) <==>
            if PosPart(front) == [] then InOrder(["--"] + rest)
            else rest == [] || MovesUnseen(PosPart(front), rest[0], rest)
    ensures ParseAnywhere(formal, front + (["--"] + rest)) ==
            Parsed(ParseAnywhere(formal, front).settings, PosPart(front) + rest)
    ensures FlagPart(["--"] + rest) != [] &&
            ParseFirst(formal, Reorder(front + (["--"] + rest))) ==
            Parsed(ParseAnywhere(formal, front).settings,
                   FlagPart(["--"] + rest)[1..] + (PosPart(front) + PosPart(["--"] + rest)))
  {
    var tail, p := ["--"] + rest, PosPart(front);
    MeaningKeptIff(formal, front + tail);
    KeptBehind(formal, [], front, tail);
    assert [] + p == p && tail[1..] == rest && (rest != [] ==> tail[1] == rest[0]);
    BothWays(formal, front, tail);
    DoubleDashParses(formal, tail);
    DoubleDashSame(formal, p, tail);
    GivenHead(p, tail);
    NothingSet(ParseAnywhere(formal, front), Help, rest);
    NothingSet(ParseAnywhere(formal, front), Help, FlagPart(tail)[1..] + (p + PosPart(tail)));
  }

  lemma DashValueKept(formal: set<string>, front: seq<string>, tail: seq<string>)
    requires Clean(front) && ParseAnywhere(formal, front).Parsed? && PairBehind(tail) && Valueless(formal, tail[0])
    ensures Kept(formal, [], front + tail) <==>
            if PosPart(front) == [] then FlagFree(tail[3..]) && InOrder(tail[3..])
            else MovesUnseen(PosPart(front), tail[2], tail[3..])
  {
    KeptBehind(formal, [], front, tail);
    assert [] + PosPart(front) == PosPart(front);
    KeptDashValue(formal, PosPart(front), tail[0], tail);
  }

  /** Behind a clean list that parses, a defined flag, tail[0], whose value tail[1] looks like a flag and is taken to
      have the value tail[2]: the meaning is kept if and only if tail[2] is not seen to move in front of the
      positionals and only positionals follow, or there are no positionals in front, no flags follow and the rest is
      in order. */
  lemma DashValueIff(formal: set<string>, front: seq<string>, tail: seq<string>)
    requires Clean(front) && ParseAnywhere(formal, front).Parsed? && PairBehind(tail) && Valueless(formal, tail[0])
    ensures ParseFirst(formal, Reorder(front + tail)) == ParseAnywhere(formal, front + tail) <==>
            if PosPart(front) == [] then FlagFree(tail[3..]) && InOrder(tail[3..])
            else MovesUnseen(PosPart(front), tail[2], tail[3..])
  {
    DashValueKept(formal, front, tail);
    MeaningKeptIff(formal, front + tail);
  }
}
