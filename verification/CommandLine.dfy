/** Command lines as a user writes them, and what the program makes of them: reordering and Go's parser end to end. */
module CommandLine {
  import opened Text
  import opened Args
  import opened Flags

  /** The ways to write a flag: -n v, --n v, -n=v, --n=v. */
  datatype Form = Form(twoDashes: bool, equals: bool)

  datatype Word = Setting(a: Assignment, form: Form) | Positional(s: string)

  /** The flag as it is written, with its value if that is attached. */
  function Written(a: Assignment, form: Form): string {
    (if form.twoDashes then "--" else "-") + (a.name + if form.equals then "=" + a.value else "")
  }

  function Print(w: Word): seq<string> {
    match w
    case Setting(a, form) => if form.equals then [Written(a, form)] else [Written(a, form), a.value]
    case Positional(s) => [s]
  }

  function PrintAll(words: seq<Word>): seq<string> {
    if words == [] then [] else Print(words[0]) + PrintAll(words[1..])
  }

  predicate IsName(name: string) {
    name != "" && name[0] != '-' && '=' !in name
  }

  /** A defined flag, whose value does not look like a flag unless it is attached, or an argument that does not. */
  predicate Proper(formal: set<string>, w: Word) {
    match w
    case Setting(a, form) =>
      a.name in formal && IsName(a.name) && (!form.equals ==> a.value == "" || a.value[0] != '-')
    case Positional(s) => s == "" || s[0] != '-'
  }

  predicate AllProper(formal: set<string>, words: seq<Word>) {
    forall k :: 0 <= k < |words| ==> Proper(formal, words[k])
  }

  function SettingsOf(words: seq<Word>): seq<Assignment> {
    if words == [] then [] else (if words[0].Setting? then [words[0].a] else []) + SettingsOf(words[1..])
  }

  function PositionalsOf(words: seq<Word>): seq<string> {
    if words == [] then [] else (if words[0].Positional? then [words[0].s] else []) + PositionalsOf(words[1..])
  }

  // ---------- One flag ----------

  lemma DashIff(s: string)
    ensures IsDash(s) <==> s != "" && s[0] == '-'
  {
    assert s != "" ==> s[..1] == [s[0]];
  }

  lemma {:induction false} EqualsFirst(name: string, rest: string)
    requires '=' !in name
    ensures EqualsAt(name + "=" + rest) == |name| && EqualsAt(name) == |name|
  {
    var s := name + "=" + rest;
    if name == "" {
      assert s[0] == '=';
    } else {
      assert s[0] == name[0] && s[1..] == name[1..] + "=" + rest;
      EqualsFirst(name[1..], rest);
    }
  }

  lemma WrittenShape(a: Assignment, form: Form)
    requires IsName(a.name)
    ensures var s, d := Written(a, form), if form.twoDashes then 2 else 1;
            && |s| > d && s[0] == '-' && (s[1] == '-' <==> form.twoDashes)
            && s[d..] == a.name + (if form.equals then "=" + a.value else "") && s[d] == a.name[0]
  {}

  /** All four ways say the same: the name, and the value exactly if it is attached. */
  lemma FlagForms(a: Assignment, form: Form)
    requires IsName(a.name)
    ensures var s := Written(a, form);
            && |s| >= 2 && IsDash(s) && s != "--"
            && FlagOf(s) == Flag(a.name, if form.equals then Some(a.value) else None)
  {
    var s := Written(a, form);
    WrittenShape(a, form);
    DashIff(s);
    EqualsFirst(a.name, a.value);
    if form.equals {
      Assoc(a.name, "=", a.value);
      NameSplit(a.name, a.value);
      assert a.name[0] != '=';
      FlagFrom(s, a.name + "=" + a.value, |a.name|);
    } else {
      assert a.name + "" == a.name;
      FlagFrom(s, a.name, |a.name|);
    }
  }

  /** A flag argument, by what stands behind its dashes. */
  lemma FlagFrom(s: string, name: string, eq: nat)
    requires |s| >= 2 && IsDash(s) && s != "--" && name == s[if s[1] == '-' then 2 else 1..]
    requires name != "" && name[0] != '-' && name[0] != '=' && eq == EqualsAt(name)
    ensures FlagOf(s) == if eq < |name| then Flag(name[..eq], Some(name[eq + 1..])) else Flag(name, None)
  {}

  lemma NameSplit(name: string, value: string)
    ensures (name + "=" + value)[..|name|] == name && (name + "=" + value)[|name| + 1..] == value
  {}

  /** What one flag comes to: set with the attached value or the next argument, or an error for a flag that is not defined
      or has no value. */
  lemma OneFlag(formal: set<string>, a: Assignment, form: Form, rest: seq<string>)
    requires IsName(a.name)
    ensures var args := [Written(a, form)] + rest;
            && |args[0]| >= 2 && IsDash(args[0]) && args[0] != "--"
            && ParseOne(formal, args) ==
               if a.name !in formal then Bad(if a.name in {"help", "h"} then Help else Undefined(a.name))
               else if form.equals then Took(a, 1)
               else if rest != [] then Took(Assignment(a.name, rest[0]), 2)
               else Bad(NeedsArgument(a.name))
  {
    FlagForms(a, form);
  }

  /** The first word of a command line is taken as written. */
  lemma FirstWord(formal: set<string>, a: Assignment, form: Form, rest: seq<string>)
    requires a.name in formal && IsName(a.name)
    ensures var args := Print(Setting(a, form)) + rest;
            && |args[0]| >= 2 && IsDash(args[0]) && args[0] != "--"
            && ParseOne(formal, args) == Took(a, |Print(Setting(a, form))|)
            && args[|Print(Setting(a, form))|..] == rest
  {
    if form.equals {
      OneFlag(formal, a, form, rest);
    } else {
      OneFlag(formal, a, form, [a.value] + rest);
      assert [Written(a, form), a.value] + rest == [Written(a, form)] + ([a.value] + rest);
    }
  }

  // ---------- Whole command lines ----------

  /** Read with flags anywhere, a command line is its settings and its positionals, each in order. */
  lemma {:induction false} ReadsAnywhere(formal: set<string>, words: seq<Word>)
    requires AllProper(formal, words)
    ensures ParseAnywhere(formal, PrintAll(words)) == Parsed(SettingsOf(words), PositionalsOf(words))
  {
    if words == [] {
    } else {
      var w, rest := words[0], PrintAll(words[1..]);
      ReadsAnywhere(formal, words[1..]);
      match w
      case Setting(a, form) =>
        FirstWord(formal, a, form, rest);
        assert [] + PositionalsOf(words[1..]) == PositionalsOf(words[1..]);
      case Positional(s) =>
        DashIff(s);
        assert ([s] + rest)[0] == s && ([s] + rest)[1..] == rest;
        assert [] + SettingsOf(words[1..]) == SettingsOf(words[1..]);
    }
  }

  lemma WrittenEquals(a: Assignment, form: Form)
    requires IsName(a.name) && form.equals
    ensures '=' in Written(a, form)
  {
    var s := Written(a, form);
    WrittenShape(a, form);
    var d := if form.twoDashes then 2 else 1;
    assert s[d..][|a.name|] == '=';
    assert s[d + |a.name|] == '=';
  }

  lemma CleanBehind(w: seq<string>, rest: seq<string>, k: nat)
    requires Clean(rest) && |w| <= k < |w + rest|
    ensures CleanAt(w + rest, k)
  {
    assert CleanAt(rest, k - |w|);
    assert (w + rest)[k] == rest[k - |w|] && (k + 1 < |w + rest| ==> (w + rest)[k + 1] == rest[k + 1 - |w|]);
  }

  lemma CleanWord(formal: set<string>, w: Word, rest: seq<string>, k: nat)
    requires Proper(formal, w) && k < |Print(w)|
    ensures CleanAt(Print(w) + rest, k)
  {
    var args := Print(w) + rest;
    match w
    case Setting(a, form) =>
      FlagForms(a, form);
      DashIff(a.value);
      if form.equals {
        WrittenEquals(a, form);
      }
    case Positional(s) => DashIff(s);
  }

  lemma {:induction false} CleanWords(formal: set<string>, words: seq<Word>)
    requires AllProper(formal, words)
    ensures Clean(PrintAll(words))
  {
    if words == [] {
    } else {
      var w, rest := words[0], PrintAll(words[1..]);
      CleanWords(formal, words[1..]);
      forall k | 0 <= k < |Print(w) + rest|
        ensures CleanAt(Print(w) + rest, k)
      {
        if k < |Print(w)| {
          CleanWord(formal, w, rest, k);
        } else {
          CleanBehind(Print(w), rest, k);
        }
      }
    }
  }

  /** The command line end to end: in whatever order and in whichever of the four forms the flags are written among the
      positionals, what the program reads after reordering is the settings in their order and the positionals in
      theirs. */
  lemma EndToEnd(formal: set<string>, words: seq<Word>)
    requires AllProper(formal, words)
    ensures ParseFirst(formal, Reorder(PrintAll(words))) == Parsed(SettingsOf(words), PositionalsOf(words))
  {
    CleanWords(formal, words);
    ReorderKeepsMeaning(formal, PrintAll(words));
    ReadsAnywhere(formal, words);
  }

  lemma {:induction false} FailsBehind(formal: set<string>, words: seq<Word>, tail: seq<string>, error: FlagError)
    requires AllProper(formal, words) && ParseAnywhere(formal, tail) == Failed([], error)
    ensures ParseAnywhere(formal, PrintAll(words) + tail) == Failed(SettingsOf(words), error)
  {
    if words == [] {
      assert [] + tail == tail;
    } else {
      var w, rest := words[0], PrintAll(words[1..]);
      FailsBehind(formal, words[1..], tail, error);
      Assoc(Print(w), rest, tail);
      match w
      case Setting(a, form) => FirstWord(formal, a, form, rest + tail);
      case Positional(s) =>
        DashIff(s);
        assert ([s] + (rest + tail))[0] == s && ([s] + (rest + tail))[1..] == rest + tail;
        assert [] + SettingsOf(words[1..]) == SettingsOf(words[1..]);
    }
  }

  /** A flag that is not defined, behind any such command line, is an error, or the call for help, after the settings in
      front of it. */
  lemma UnknownFlag(formal: set<string>, words: seq<Word>, a: Assignment, form: Form, rest: seq<string>)
    requires AllProper(formal, words) && IsName(a.name) && a.name !in formal
    ensures ParseAnywhere(formal, PrintAll(words) + ([Written(a, form)] + rest)) ==
            Failed(SettingsOf(words), if a.name in {"help", "h"} then Help else Undefined(a.name))
  {
    OneFlag(formal, a, form, rest);
    FailsBehind(formal, words, [Written(a, form)] + rest, if a.name in {"help", "h"} then Help else Undefined(a.name));
  }

  lemma {:induction false} EndsBehind(formal: set<string>, words: seq<Word>, tail: seq<string>, rest: seq<string>)
    requires AllProper(formal, words) && ParseAnywhere(formal, tail) == Parsed([], rest)
    ensures ParseAnywhere(formal, PrintAll(words) + tail) == Parsed(SettingsOf(words), PositionalsOf(words) + rest)
  {
    if words == [] {
      assert [] + tail == tail && [] + rest == rest;
    } else {
      var w, more := words[0], PrintAll(words[1..]);
      EndsBehind(formal, words[1..], tail, rest);
      Assoc(Print(w), more, tail);
      match w
      case Setting(a, form) =>
        FirstWord(formal, a, form, more + tail);
        assert [] + PositionalsOf(words[1..]) == PositionalsOf(words[1..]);
      case Positional(s) =>
        DashIff(s);
        assert ([s] + (more + tail))[0] == s && ([s] + (more + tail))[1..] == more + tail;
        assert [] + SettingsOf(words[1..]) == SettingsOf(words[1..]);
        Assoc([s], PositionalsOf(words[1..]), rest);
    }
  }

  /** Where flags end: a double dash is dropped and everything behind it is positional; Go's parser also stops at a lone
      dash and at an empty argument, and keeps them. */
  lemma FlagsEnd(formal: set<string>, words: seq<Word>, rest: seq<string>)
    requires AllProper(formal, words)
    ensures ParseAnywhere(formal, PrintAll(words) + (["--"] + rest)) ==
            Parsed(SettingsOf(words), PositionalsOf(words) + rest)
    ensures ParseFirst(formal, ["--"] + rest) == Parsed([], rest)
    ensures ParseFirst(formal, ["-"] + rest) == Parsed([], ["-"] + rest)
    ensures ParseFirst(formal, [""] + rest) == Parsed([], [""] + rest)
  {
    DashIff("--");
    EndsBehind(formal, words, ["--"] + rest, rest);
  }
}
