/** reorderArgs. */
module Args {
  import opened Text

  /** A flag-like argument for reorderArgs. */
  predicate IsDash(a: string) {
    HasPrefix(a, "-")
  }

  /** A flag that reorderArgs pairs with the next argument, if there is one that does not look like a flag. */
  predicate TakesNext(args: seq<string>)
    requires args != []
  {
    IsDash(args[0]) && '=' !in args[0] && |args| > 1 && !IsDash(args[1])
  }

  /** How many arguments the first group has: a flag with its value, a flag alone, or a positional. */
  function GroupSize(args: seq<string>): (n: nat)
    requires args != []
    ensures 1 <= n <= |args|
  {
    if TakesNext(args) then 2 else 1
  }

  function FlagPart(args: seq<string>): seq<string> {
    if args == [] then []
    else (if IsDash(args[0]) then args[..GroupSize(args)] else []) + FlagPart(args[GroupSize(args)..])
  }

  function PosPart(args: seq<string>): seq<string> {
    if args == [] then []
    else (if IsDash(args[0]) then [] else args[..GroupSize(args)]) + PosPart(args[GroupSize(args)..])
  }

  /** The flag groups in order, then the positionals in order. */
  function Reorder(args: seq<string>): seq<string> {
    FlagPart(args) + PosPart(args)
  }

  /** The argument at position i is paired with the next one. */
  predicate PairedAt(args: seq<string>, i: nat)
    requires i < |args|
  {
    IsDash(args[i]) && '=' !in args[i] && i + 1 < |args| && !IsDash(args[i + 1])
  }

  /** The parts of what is left, by its first group. */
  lemma PartsAt(args: seq<string>, i: nat)
    requires i < |args|
    ensures !IsDash(args[i]) ==>
              FlagPart(args[i..]) == FlagPart(args[i + 1..]) && PosPart(args[i..]) == [args[i]] + PosPart(args[i + 1..])
    ensures IsDash(args[i]) && !PairedAt(args, i) ==>
              FlagPart(args[i..]) == [args[i]] + FlagPart(args[i + 1..]) && PosPart(args[i..]) == PosPart(args[i + 1..])
    ensures PairedAt(args, i) ==>
              FlagPart(args[i..]) == [args[i], args[i + 1]] + FlagPart(args[i + 2..])
              && PosPart(args[i..]) == PosPart(args[i + 2..])
  {
    var left, n := args[i..], GroupSize(args[i..]);
    DropDrop(args, i, n);
    assert left[0] == args[i] && (PairedAt(args, i) <==> TakesNext(left));
    assert left[..n] == if PairedAt(args, i) then [args[i], args[i + 1]] else [args[i]];
    assert [] + FlagPart(left[n..]) == FlagPart(left[n..]) && [] + PosPart(left[n..]) == PosPart(left[n..]);
  }

  lemma AppendTwo(acc: seq<string>, a: string, b: string, rest: seq<string>)
    ensures (acc + [a] + [b]) + rest == acc + ([a, b] + rest)
  {}

  /** reorderArgs, as the index loop it is. */
  method ReorderArgs(args: seq<string>) returns (r: seq<string>)
    ensures r == Reorder(args)
  {
    var flagArgs: seq<string>, posArgs: seq<string> := [], [];
    var i := 0;
    while i < |args|
      invariant 0 <= i <= |args|
      invariant flagArgs + FlagPart(args[i..]) == FlagPart(args)
      invariant posArgs + PosPart(args[i..]) == PosPart(args)
      decreases |args| - i
    {
      PartsAt(args, i);
      if HasPrefix(args[i], "-") {
        ghost var flags := flagArgs;
        flagArgs := flagArgs + [args[i]];
        if '=' !in args[i] && i + 1 < |args| && !HasPrefix(args[i + 1], "-") {
          AppendTwo(flags, args[i], args[i + 1], FlagPart(args[i + 2..]));
          i := i + 1;
          flagArgs := flagArgs + [args[i]];
        } else {
          Assoc(flags, [args[i]], FlagPart(args[i + 1..]));
        }
      } else {
        Assoc(posArgs, [args[i]], PosPart(args[i + 1..]));
        posArgs := posArgs + [args[i]];
      }
      i := i + 1;
    }
    r := flagArgs + posArgs;
  }

  // ---------- Stable partition ----------

  /** An argument list as groups: flags, alone or with the value they take, and positionals. */
  function Groups(args: seq<string>): seq<seq<string>> {
    if args == [] then [] else [args[..GroupSize(args)]] + Groups(args[GroupSize(args)..])
  }

  predicate IsFlagGroup(g: seq<string>) {
    g != [] && IsDash(g[0])
  }

  function Concat(gs: seq<seq<string>>): seq<string> {
    if gs == [] then [] else gs[0] + Concat(gs[1..])
  }

  /** The groups that are flag groups, or those that are not, in order. */
  function Select(gs: seq<seq<string>>, flags: bool): seq<seq<string>> {
    if gs == [] then [] else (if IsFlagGroup(gs[0]) == flags then [gs[0]] else []) + Select(gs[1..], flags)
  }

  lemma ConcatSelect(g: seq<string>, gs: seq<seq<string>>, flags: bool)
    ensures Concat(Select([g] + gs, flags)) == (if IsFlagGroup(g) == flags then g else []) + Concat(Select(gs, flags))
  {
    var all := [g] + gs;
    assert all[0] == g && all[1..] == gs;
    var s := Select(gs, flags);
    var more := [g] + s;
    assert more[0] == g && more[1..] == s;
    assert [] + s == s;
    assert Select(all, flags) == if IsFlagGroup(g) == flags then more else s;
    assert Concat(more) == g + Concat(s) && [] + Concat(s) == Concat(s);
  }

  /** reorderArgs is a stable partition: the groups cut the list up without remainder, and the result is the flag
      groups in their order, each still in one piece, followed by the positionals in theirs. */
  lemma {:induction false} StablePartition(args: seq<string>)
    ensures Concat(Groups(args)) == args
    ensures FlagPart(args) == Concat(Select(Groups(args), true))
    ensures PosPart(args) == Concat(Select(Groups(args), false))
  {
    if args == [] {
    } else {
      var g, rest := args[..GroupSize(args)], args[GroupSize(args)..];
      StablePartition(rest);
      ConcatSelect(g, Groups(rest), true);
      ConcatSelect(g, Groups(rest), false);
      assert ([g] + Groups(rest))[1..] == Groups(rest);
      assert args == g + rest;
      assert IsFlagGroup(g) == IsDash(args[0]);
    }
  }

  lemma {:induction false} ConcatPermutes(gs: seq<seq<string>>)
    ensures multiset(Concat(Select(gs, true))) + multiset(Concat(Select(gs, false))) == multiset(Concat(gs))
  {
    if gs == [] {
      assert Concat([]) == [];
    } else {
      var g, rest := gs[0], gs[1..];
      ConcatPermutes(rest);
      assert [g] + rest == gs;
      ConcatSelect(g, rest, true);
      ConcatSelect(g, rest, false);
      TwoParts(g, Concat(Select(rest, true)), Concat(Select(rest, false)), Concat(rest), IsFlagGroup(g));
    }
  }

  lemma TwoParts(g: seq<string>, a: seq<string>, b: seq<string>, all: seq<string>, first: bool)
    requires multiset(a) + multiset(b) == multiset(all)
    ensures multiset((if first then g else []) + a) + multiset((if first then [] else g) + b) == multiset(g + all)
  {
    assert [] + a == a && [] + b == b;
  }

  /** On every input the result is a permutation. */
  lemma ReorderPermutes(args: seq<string>)
    ensures multiset(Reorder(args)) == multiset(args)
  {
    StablePartition(args);
    ConcatPermutes(Groups(args));
  }

  /** A flags-only list whose groups are as given regroups to them, except that a last flag without a value takes
      what follows if that does not look like a flag. */
  predicate AllFlags(args: seq<string>) {
    args == [] ||
    (IsDash(args[0]) && (if TakesNext(args) then AllFlags(args[2..]) else AllFlags(args[1..])))
  }

  predicate NoDash(args: seq<string>) {
    forall k :: 0 <= k < |args| ==> !IsDash(args[k])
  }

  /** A flag group in front of a flags-only list that starts with a flag. */
  lemma FlagsCons(g: seq<string>, f: seq<string>)
    requires g != [] && GroupSize(g) == |g| && IsDash(g[0])
    requires AllFlags(f) && (f != [] ==> IsDash(f[0]))
    ensures AllFlags(g + f)
  {
    var p := g + f;
    assert p[|g|..] == f;
    assert TakesNext(p) == TakesNext(g);
    if TakesNext(g) {
      assert p[2..] == f;
    } else {
      assert p[1..] == f;
    }
  }

  /** The parts of a list, by its first group. */
  lemma PartsOf(args: seq<string>)
    requires args != []
    ensures var g, rest := args[..GroupSize(args)], args[GroupSize(args)..];
            && FlagPart(args) == (if IsDash(args[0]) then g + FlagPart(rest) else FlagPart(rest))
            && PosPart(args) == (if IsDash(args[0]) then PosPart(rest) else g + PosPart(rest))
  {
    var rest := args[GroupSize(args)..];
    assert [] + FlagPart(rest) == FlagPart(rest) && [] + PosPart(rest) == PosPart(rest);
  }

  lemma NoDashMore(a: string, p: seq<string>)
    requires !IsDash(a) && NoDash(p)
    ensures NoDash([a] + p)
  {}

  lemma {:induction false} PartsShape(args: seq<string>)
    ensures NoDash(PosPart(args)) && AllFlags(FlagPart(args))
  {
    if args == [] {
    } else {
      var n := GroupSize(args);
      PartsShape(args[n..]);
      PartsOf(args);
      if IsDash(args[0]) {
        FlagPartStarts(args[n..]);
        FlagsCons(args[..n], FlagPart(args[n..]));
      } else {
        assert args[..n] == [args[0]];
        NoDashMore(args[0], PosPart(args[n..]));
      }
    }
  }

  /** The flag part of a list starts with a flag. */
  lemma {:induction false} FlagPartStarts(args: seq<string>)
    ensures FlagPart(args) != [] ==> IsDash(FlagPart(args)[0])
  {
    if args == [] || IsDash(args[0]) {
    } else {
      FlagPartStarts(args[1..]);
    }
  }

  /** A list that starts with a flag is kept if what follows the flag's group is. */
  lemma KeptBehindFlag(args: seq<string>)
    requires args != [] && IsDash(args[0]) && Reorder(args[GroupSize(args)..]) == args[GroupSize(args)..]
    ensures Reorder(args) == args
  {
    var n := GroupSize(args);
    Assoc(args[..n], FlagPart(args[n..]), PosPart(args[n..]));
    assert args == args[..n] + args[n..];
  }

  /** Reordering flags followed by positionals changes nothing. */
  lemma {:induction false} ReorderOrdered(f: seq<string>, p: seq<string>)
    requires AllFlags(f) && NoDash(p)
    ensures Reorder(f + p) == f + p
  {
    var all := f + p;
    if f == [] {
      assert all == p;
      PositionalsKept(p);
    } else {
      if TakesNext(f) {
        assert all[2..] == f[2..] + p;
        ReorderOrdered(f[2..], p);
      } else if |f| == 1 && TakesNext(all) {
        // the last flag meets the first positional
        assert all[2..] == p[1..];
        PositionalsKept(p[1..]);
      } else {
        assert all[1..] == f[1..] + p;
        ReorderOrdered(f[1..], p);
      }
      KeptBehindFlag(all);
    }
  }

  lemma {:induction false} PositionalsKept(p: seq<string>)
    requires NoDash(p)
    ensures FlagPart(p) == [] && PosPart(p) == p
  {
    if p == [] {
    } else {
      PositionalsKept(p[1..]);
      assert p == [p[0]] + p[1..];
    }
  }

  /** reorderArgs is idempotent on every input, also when a trailing flag without a value meets the first positional. */
  lemma Idempotent(args: seq<string>)
    ensures Reorder(Reorder(args)) == Reorder(args)
  {
    PartsShape(args);
    ReorderOrdered(FlagPart(args), PosPart(args));
  }
}
