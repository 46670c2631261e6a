/** The option reader of `engine/curl.go`: `ParseCurl`, `readOption`, `readLongOption` and `takeNext`.

The tables of known options are a parameter, so everything here holds for every table. What an
option does to the request is kept as an effect: the request depends on the effects in order, on
the words, and on nothing else. */
module CurlOptions {
  import opened Text

  /** The four tables of `lookupCurlOption`. */
  datatype Tables = Tables(
    valueFlags: map<string, string>, switches: map<string, string>,
    otherValueFlags: set<string>, otherSwitches: set<string>)

  datatype Known = Known(kind: string, takesValue: bool)

  const IGNORED := "ignored"
  const NEGATION := "--no-"

  function Lookup(t: Tables, name: string): Option<Known> {
    if name in t.valueFlags then Some(Known(t.valueFlags[name], true))
    else if name in t.switches then Some(Known(t.switches[name], false))
    else if name in t.otherValueFlags then Some(Known(IGNORED, true))
    else if name in t.otherSwitches then Some(Known(IGNORED, false))
    else if HasPrefix(name, NEGATION) && "--" + name[|NEGATION|..] in t.otherSwitches then Some(Known(IGNORED, false))
    else None
  }

  datatype Effect = ApplyValue(kind: string, value: string) | ApplySwitch(kind: string)

  /** A word that is no option, and the unknown option right before it, if any. */
  datatype Word = Word(text: string, afterUnknown: string)

  datatype Reader = Reader(effects: seq<Effect>, words: seq<Word>, unknown: string)

  datatype Outcome = Read(reader: Reader) | NeedsValue(option: string)

  /** What reading one option gives: its effects, the unknown option it leaves behind, and how many arguments it used. */
  datatype Taken = Taken(effects: seq<Effect>, unknown: string, used: nat) | Missing(option: string) {
    function After(earlier: seq<Effect>): Taken {
      if Taken? then Taken(earlier + effects, unknown, used) else this
    }
  }

  predicate IsOption(token: string) {
    |token| > 1 && token[0] == '-'
  }

  function TakeNext(next: Option<string>, name: string, kind: string): Taken {
    match next
    case None => Missing(name)
    case Some(value) => Taken([ApplyValue(kind, value)], "", 2)
  }

  /** The flags of a short option, one character each; `token` is the whole option. */
  function ReadBundle(t: Tables, token: string, bundle: string, next: Option<string>, unknown: string): Taken {
    if bundle == "" then Taken([], unknown, 1)
    else
      var name := "-" + [bundle[0]];
      match Lookup(t, name)
      case None => ReadBundle(t, token, bundle[1..], next, token)
      case Some(known) =>
        if !known.takesValue then ReadBundle(t, token, bundle[1..], next, unknown).After([ApplySwitch(known.kind)])
        else if bundle[1..] != "" then Taken([ApplyValue(known.kind, bundle[1..])], "", 1)
        else TakeNext(next, name, known.kind)
  }

  function ReadLong(t: Tables, token: string, next: Option<string>): Taken {
    var cut := CutAt(token, '=');
    match Lookup(t, cut.before)
    case None => Taken([], if cut.found then "" else cut.before, 1)
    case Some(known) =>
      if !known.takesValue then Taken([ApplySwitch(known.kind)], "", 1)
      else if cut.found then Taken([ApplyValue(known.kind, cut.after)], "", 1)
      else TakeNext(next, cut.before, known.kind)
  }

  function ReadOption(t: Tables, token: string, next: Option<string>): (taken: Taken)
    requires IsOption(token)
  {
    if HasPrefix(token, "--") then ReadLong(t, token, next) else ReadBundle(t, token, token[1..], next, "")
  }

  function NextOf(args: seq<string>): Option<string> {
    if |args| > 1 then Some(args[1]) else None
  }

  lemma {:induction false} BundleUses(t: Tables, token: string, bundle: string, next: Option<string>, unknown: string)
    ensures var taken := ReadBundle(t, token, bundle, next, unknown);
            taken.Taken? ==> 1 <= taken.used <= if next.Some? then 2 else 1
  {
    if bundle != "" {
      BundleUses(t, token, bundle[1..], next, token);
      BundleUses(t, token, bundle[1..], next, unknown);
    }
  }

  lemma OptionUses(t: Tables, args: seq<string>)
    requires args != [] && IsOption(args[0])
    ensures var taken := ReadOption(t, args[0], NextOf(args));
            taken.Taken? ==> 1 <= taken.used <= |args|
  {
    BundleUses(t, args[0], args[0][1..], NextOf(args), "");
  }

  function AddWord(r: Reader, token: string): Reader {
    Reader(r.effects, r.words + [Word(token, r.unknown)], "")
  }

  function AddTaken(r: Reader, taken: Taken): Reader
    requires taken.Taken?
  {
    Reader(r.effects + taken.effects, r.words, taken.unknown)
  }

  /** The arguments after the program name. */
  function ReadArguments(t: Tables, args: seq<string>, ended: bool, r: Reader): Outcome
    decreases |args|
  {
    if args == [] then Read(r)
    else if ended || !IsOption(args[0]) then ReadArguments(t, args[1..], ended, AddWord(r, args[0]))
    else if args[0] == "--" then ReadArguments(t, args[1..], true, r)
    else
      OptionUses(t, args);
      match ReadOption(t, args[0], NextOf(args))
      case Missing(option) => NeedsValue(option)
      case Taken(effects, unknown, used) => ReadArguments(t, args[used..], false, AddTaken(r, Taken(effects, unknown, used)))
  }

  const NOTHING := Reader([], [], "")

  /** The loop of `ParseCurl`: every round moves the index forward. */
  method ReadTokens(t: Tables, tokens: seq<string>) returns (outcome: Outcome)
    requires tokens != []
    ensures outcome == ReadArguments(t, tokens[1..], false, NOTHING)
  {
    var r, ended, i := NOTHING, false, 1;
    while i < |tokens|
      invariant 1 <= i <= |tokens|
      invariant ReadArguments(t, tokens[i..], ended, r) == ReadArguments(t, tokens[1..], false, NOTHING)
      decreases |tokens| - i
    {
      var token := tokens[i];
      ghost var rest := tokens[i..];
      if ended || !IsOption(token) {
        r := AddWord(r, token);
      } else if token == "--" {
        ended := true;
      } else {
        OptionUses(t, rest);
        var taken := ReadOption(t, token, if i + 1 < |tokens| then Some(tokens[i + 1]) else None);
        if taken.Missing? {
          return NeedsValue(taken.option);
        }
        r := AddTaken(r, taken);
        assert rest[taken.used..] == tokens[i + taken.used..];
        i := i + taken.used - 1;
      }
      assert rest[1..] == tokens[|tokens| - |rest| + 1..];
      i := i + 1;
    }
    outcome := Read(r);
  }

  predicate LooksLikeURL(text: string) {
    || HasPrefix(text, "{{") || ToLower(text) == "localhost"
    || exists i :: 0 <= i < |text| && (text[i] == '.' || text[i] == '/' || text[i] == ':')
  }

  datatype Choice = Chosen(url: string) | NoUrl | NoUrlAfter(option: string, value: string)

  /** The first word of a kind: kind 0 looks like a URL and follows no unknown option, kind 1 looks like one, kind 2 follows none. */
  function KindOf(word: Word): nat {
    if LooksLikeURL(word.text) then (if word.afterUnknown == "" then 0 else 1)
    else if word.afterUnknown == "" then 2 else 3
  }

  function FirstOf(words: seq<Word>, kind: nat): Option<string> {
    if words == [] then None else if KindOf(words[0]) == kind then Some(words[0].text) else FirstOf(words[1..], kind)
  }

  /** `chooseCurlURL`. */
  function ChooseURL(words: seq<Word>): Choice {
    if FirstOf(words, 0).Some? then Chosen(FirstOf(words, 0).value)
    else if FirstOf(words, 1).Some? then Chosen(FirstOf(words, 1).value)
    else if FirstOf(words, 2).Some? then Chosen(FirstOf(words, 2).value)
    else if words != [] then NoUrlAfter(words[0].afterUnknown, words[0].text)
    else NoUrl
  }

  /** The first URL an option gives. */
  function UrlOf(effects: seq<Effect>): string {
    if effects == [] then ""
    else if effects[0].ApplyValue? && effects[0].kind == "url" && effects[0].value != "" then effects[0].value
    else UrlOf(effects[1..])
  }

  function AfterLastSeparator(token: string): string {
    if token == "" then ""
    else
      var c := token[|token| - 1];
      if c == '/' || c == '\\' then "" else AfterLastSeparator(token[..|token| - 1]) + [c]
  }

  predicate IsCurlProgram(token: string) {
    ToLower(AfterLastSeparator(token)) in {"curl", "curl.exe"}
  }

  /** What is left of a command once it is read: the effects to apply in order, and the address. */
  datatype Result = NotCurl | Unfinished(option: string) | NoAddress(choice: Choice) | Request(effects: seq<Effect>, url: string)

  /** `ParseCurl` up to `build`. */
  function ParseCurl(t: Tables, tokens: seq<string>): Result {
    if tokens == [] || !IsCurlProgram(tokens[0]) then NotCurl
    else match ReadArguments(t, tokens[1..], false, NOTHING)
      case NeedsValue(option) => Unfinished(option)
      case Read(r) =>
        var choice := if UrlOf(r.effects) != "" then Chosen(UrlOf(r.effects)) else ChooseURL(r.words);
        if choice.Chosen? && choice.url != "" then Request(r.effects, choice.url) else NoAddress(choice)
  }

  // Rewriting arguments.

  /** Reading `args` ends right after them, still looking for options: the reader then is at an option position. */
  function ReadPrefix(t: Tables, args: seq<string>, r: Reader): Option<Reader>
    decreases |args|
  {
    if args == [] then Some(r)
    else if !IsOption(args[0]) then ReadPrefix(t, args[1..], AddWord(r, args[0]))
    else if args[0] == "--" then None
    else
      OptionUses(t, args);
      match ReadOption(t, args[0], NextOf(args))
      case Missing(_) => None
      case Taken(effects, unknown, used) => ReadPrefix(t, args[used..], AddTaken(r, Taken(effects, unknown, used)))
  }

  lemma {:induction false} BundleIgnoresNext(t: Tables, token: string, bundle: string, next: Option<string>, unknown: string)
    requires ReadBundle(t, token, bundle, None, unknown).Taken?
    ensures ReadBundle(t, token, bundle, next, unknown) == ReadBundle(t, token, bundle, None, unknown)
  {
    if bundle != "" {
      match Lookup(t, "-" + [bundle[0]])
      case None => BundleIgnoresNext(t, token, bundle[1..], next, token);
      case Some(known) =>
        if !known.takesValue {
          BundleIgnoresNext(t, token, bundle[1..], next, unknown);
        }
    }
  }

  lemma OptionInPrefix(t: Tables, pre: seq<string>, rest: seq<string>)
    requires pre != [] && IsOption(pre[0]) && ReadOption(t, pre[0], NextOf(pre)).Taken?
    ensures ReadOption(t, pre[0], NextOf(pre + rest)) == ReadOption(t, pre[0], NextOf(pre))
  {
    if |pre| == 1 && !HasPrefix(pre[0], "--") {
      BundleIgnoresNext(t, pre[0], pre[0][1..], NextOf(pre + rest), "");
    }
  }

  /** What comes before an option position is read the same whatever follows. */
  lemma {:induction false} PrefixReads(t: Tables, pre: seq<string>, rest: seq<string>, r: Reader)
    requires ReadPrefix(t, pre, r).Some?
    ensures ReadArguments(t, pre + rest, false, r) == ReadArguments(t, rest, false, ReadPrefix(t, pre, r).value)
    decreases |pre|
  {
    if pre == [] {
      assert pre + rest == rest;
    } else if !IsOption(pre[0]) {
      assert (pre + rest)[1..] == pre[1..] + rest;
      PrefixReads(t, pre[1..], rest, AddWord(r, pre[0]));
    } else {
      OptionUses(t, pre);
      OptionInPrefix(t, pre, rest);
      var taken := ReadOption(t, pre[0], NextOf(pre));
      assert (pre + rest)[taken.used..] == pre[taken.used..] + rest;
      PrefixReads(t, pre[taken.used..], rest, AddTaken(r, taken));
    }
  }

  ghost predicate AreSwitches(t: Tables, flags: string) {
    forall i :: 0 <= i < |flags| ==> Lookup(t, "-" + [flags[i]]).Some? && !Lookup(t, "-" + [flags[i]]).value.takesValue
  }

  /** Up to the first flag that takes a value, if any, every flag is known. */
  predicate IsKnownBundle(t: Tables, bundle: string) {
    bundle == "" ||
    (Lookup(t, "-" + [bundle[0]]).Some? && (Lookup(t, "-" + [bundle[0]]).value.takesValue || IsKnownBundle(t, bundle[1..])))
  }

  lemma {:induction false} KnownBundleIgnoresToken(t: Tables, token: string, other: string, bundle: string, next: Option<string>)
    requires IsKnownBundle(t, bundle)
    ensures ReadBundle(t, token, bundle, next, "") == ReadBundle(t, other, bundle, next, "")
  {
    if bundle != "" && !Lookup(t, "-" + [bundle[0]]).value.takesValue {
      KnownBundleIgnoresToken(t, token, other, bundle[1..], next);
    }
  }

  function SwitchEffects(t: Tables, flags: string): seq<Effect> {
    if flags == "" then []
    else
      (match Lookup(t, "-" + [flags[0]]) case Some(known) => [ApplySwitch(known.kind)] case None => [])
      + SwitchEffects(t, flags[1..])
  }

  lemma AfterAfter(taken: Taken, a: seq<Effect>, b: seq<Effect>)
    ensures taken.After(b).After(a) == taken.After(a + b)
  {
    assert taken.Taken? ==> a + (b + taken.effects) == a + b + taken.effects;
  }

  lemma {:induction false} SwitchesFirst(t: Tables, token: string, flags: string, bundle: string, next: Option<string>)
    requires AreSwitches(t, flags)
    ensures ReadBundle(t, token, flags + bundle, next, "") == ReadBundle(t, token, bundle, next, "").After(SwitchEffects(t, flags))
  {
    var taken := ReadBundle(t, token, bundle, next, "");
    if flags == "" {
      assert flags + bundle == bundle;
      assert taken.Taken? ==> [] + taken.effects == taken.effects;
    } else {
      assert (flags + bundle)[1..] == flags[1..] + bundle;
      assert forall i :: 0 <= i < |flags[1..]| ==> flags[1..][i] == flags[i + 1];
      SwitchesFirst(t, token, flags[1..], bundle, next);
      AfterAfter(taken, [ApplySwitch(Lookup(t, "-" + [flags[0]]).value.kind)], SwitchEffects(t, flags[1..]));
    }
  }

  lemma AddBoth(r: Reader, taken: Taken, effects: seq<Effect>)
    requires taken.Taken?
    ensures AddTaken(AddTaken(r, Taken(effects, "", 1)), taken) == AddTaken(r, taken.After(effects))
  {
    assert r.effects + effects + taken.effects == r.effects + (effects + taken.effects);
  }

  /** What `ReadArguments` does with an option, given how the option reads. */
  function Continue(t: Tables, args: seq<string>, r: Reader, taken: Taken): Outcome
    requires taken.Taken? ==> 1 <= taken.used <= |args|
  {
    match taken
    case Missing(option) => NeedsValue(option)
    case Taken(effects, unknown, used) => ReadArguments(t, args[used..], false, AddTaken(r, taken))
  }

  lemma OptionContinues(t: Tables, args: seq<string>, r: Reader)
    requires args != [] && IsOption(args[0]) && args[0] != "--"
    ensures var taken := ReadOption(t, args[0], NextOf(args));
            (taken.Taken? ==> 1 <= taken.used <= |args|) && ReadArguments(t, args, false, r) == Continue(t, args, r, taken)
  {
    OptionUses(t, args);
  }

  lemma ShortReads(t: Tables, bundle: string, next: Option<string>)
    requires bundle != "" && bundle[0] != '-'
    ensures var token := "-" + bundle;
            IsOption(token) && token != "--" && ReadOption(t, token, next) == ReadBundle(t, token, bundle, next, "")
  {
    assert ("-" + bundle)[1..] == bundle;
    assert ("-" + bundle)[1] == bundle[0];
  }

  /** Splitting a bundle of known flags: `-ab` and `-a -b` read the same. */
  lemma SplittingBundles(t: Tables, flags: string, bundle: string, rest: seq<string>, r: Reader)
    requires flags != "" && bundle != "" && flags[0] != '-' && bundle[0] != '-'
    requires AreSwitches(t, flags) && IsKnownBundle(t, bundle)
    ensures ReadArguments(t, ["-" + (flags + bundle)] + rest, false, r) == ReadArguments(t, ["-" + flags, "-" + bundle] + rest, false, r)
  {
    var whole, second := ["-" + (flags + bundle)] + rest, ["-" + bundle] + rest;
    var both := ["-" + flags, "-" + bundle] + rest;
    var next := NextOf(whole);
    var effects := SwitchEffects(t, flags);
    var taken := ReadBundle(t, "-" + bundle, bundle, next, "");
    assert NextOf(second) == next;
    SwitchesFirst(t, "-" + (flags + bundle), flags, bundle, next);
    KnownBundleIgnoresToken(t, "-" + (flags + bundle), "-" + bundle, bundle, next);
    ShortReads(t, flags + bundle, next);
    OptionContinues(t, whole, r);
    OnlySwitches(t, flags, "-" + bundle, rest, r);
    ShortReads(t, bundle, next);
    var read := AddTaken(r, Taken(effects, "", 1));
    OptionContinues(t, second, read);
    if taken.Taken? {
      AddBoth(r, taken, effects);
      assert whole[taken.used..] == second[taken.used..];
    }
  }

  /** An option of switches only adds their effects. */
  lemma OnlySwitches(t: Tables, flags: string, token: string, rest: seq<string>, r: Reader)
    requires flags != "" && flags[0] != '-' && AreSwitches(t, flags)
    ensures ReadArguments(t, ["-" + flags, token] + rest, false, r)
         == ReadArguments(t, [token] + rest, false, AddTaken(r, Taken(SwitchEffects(t, flags), "", 1)))
  {
    var args := ["-" + flags, token] + rest;
    SwitchesFirst(t, "-" + flags, flags, "", NextOf(args));
    assert flags + "" == flags;
    ShortReads(t, flags, NextOf(args));
    OptionContinues(t, args, r);
    assert SwitchEffects(t, flags) + [] == SwitchEffects(t, flags);
    assert args[1..] == [token] + rest;
  }

  /** Detaching a short value: `-abXvalue` and `-abX value` read the same. */
  lemma DetachingShortValues(t: Tables, flags: string, c: char, value: string, rest: seq<string>, r: Reader)
    requires (flags + [c])[0] != '-' && AreSwitches(t, flags) && value != ""
    requires Lookup(t, "-" + [c]).Some? && Lookup(t, "-" + [c]).value.takesValue
    ensures ReadArguments(t, ["-" + (flags + ([c] + value))] + rest, false, r) == ReadArguments(t, ["-" + (flags + [c]), value] + rest, false, r)
  {
    var whole, both := ["-" + (flags + ([c] + value))] + rest, ["-" + (flags + [c]), value] + rest;
    SwitchesFirst(t, whole[0], flags, [c] + value, NextOf(whole));
    assert ([c] + value)[1..] == value;
    ShortReads(t, flags + ([c] + value), NextOf(whole));
    OptionContinues(t, whole, r);
    SwitchesFirst(t, both[0], flags, [c], NextOf(both));
    ShortReads(t, flags + [c], NextOf(both));
    OptionContinues(t, both, r);
    assert whole[1..] == rest && both[2..] == rest;
  }

  lemma CutEquals(name: string, value: string)
    requires '=' !in name
    ensures CutAt(name + "=" + value, '=') == Cut(name, value, true)
    ensures CutAt(name, '=') == Cut(name, "", false)
  {
    var s := name + "=" + value;
    assert s[..|name|] == name && s[|name| + 1..] == value && name[..|name|] == name;
    IndexIsFirst(s, '=', 0, |name|);
    IndexIsFirst(name, '=', 0, |name|);
  }

  /** Detaching a long value: `--name=value` and `--name value` read the same. */
  lemma DetachingLongValues(t: Tables, name: string, value: string, rest: seq<string>, r: Reader)
    requires HasPrefix(name, "--") && name != "--" && '=' !in name
    requires Lookup(t, name).Some? && Lookup(t, name).value.takesValue
    ensures ReadArguments(t, [name + "=" + value] + rest, false, r) == ReadArguments(t, [name, value] + rest, false, r)
  {
    var whole, both := [name + "=" + value] + rest, [name, value] + rest;
    CutEquals(name, value);
    OptionContinues(t, whole, r);
    OptionContinues(t, both, r);
    assert whole[1..] == rest && both[2..] == rest;
  }

  /** The three rewritings, as one relation between argument lists. */
  ghost predicate Rewrites(t: Tables, from: seq<string>, to: seq<string>) {
    || (exists flags: string, bundle: string ::
          && flags != "" && bundle != "" && flags[0] != '-' && bundle[0] != '-' && AreSwitches(t, flags) && IsKnownBundle(t, bundle)
          && from == ["-" + (flags + bundle)] && to == ["-" + flags, "-" + bundle])
    || (exists flags: string, c: char, value: string ::
          && (flags + [c])[0] != '-' && AreSwitches(t, flags) && value != ""
          && Lookup(t, "-" + [c]).Some? && Lookup(t, "-" + [c]).value.takesValue
          && from == ["-" + (flags + ([c] + value))] && to == ["-" + (flags + [c]), value])
    || (exists name: string, value: string ::
          && HasPrefix(name, "--") && name != "--" && '=' !in name
          && Lookup(t, name).Some? && Lookup(t, name).value.takesValue
          && from == [name + "=" + value] && to == [name, value])
  }

  /** Rewriting an argument at an option position leaves everything that is read unchanged. */
  lemma RewritingKeepsMeaning(t: Tables, before: seq<string>, from: seq<string>, to: seq<string>, rest: seq<string>)
    requires ReadPrefix(t, before, NOTHING).Some? && Rewrites(t, from, to)
    ensures ReadArguments(t, before + (from + rest), false, NOTHING) == ReadArguments(t, before + (to + rest), false, NOTHING)
  {
    var r := ReadPrefix(t, before, NOTHING).value;
    PrefixReads(t, before, from + rest, NOTHING);
    PrefixReads(t, before, to + rest, NOTHING);
    if flags: string, bundle: string :|
      && flags != "" && bundle != "" && flags[0] != '-' && bundle[0] != '-' && AreSwitches(t, flags) && IsKnownBundle(t, bundle)
      && from == ["-" + (flags + bundle)] && to == ["-" + flags, "-" + bundle]
    {
      SplittingBundles(t, flags, bundle, rest, r);
    } else if flags: string, c: char, value: string :|
      && (flags + [c])[0] != '-' && AreSwitches(t, flags) && value != ""
      && Lookup(t, "-" + [c]).Some? && Lookup(t, "-" + [c]).value.takesValue
      && from == ["-" + (flags + ([c] + value))] && to == ["-" + (flags + [c]), value]
    {
      DetachingShortValues(t, flags, c, value, rest, r);
    } else {
      var name: string, value: string :|
        && HasPrefix(name, "--") && name != "--" && '=' !in name
        && Lookup(t, name).Some? && Lookup(t, name).value.takesValue
        && from == [name + "=" + value] && to == [name, value];
      DetachingLongValues(t, name, value, rest, r);
    }
  }

  /** So the parsed request is unchanged. */
  lemma RewritingKeepsRequest(t: Tables, program: string, before: seq<string>, from: seq<string>, to: seq<string>, rest: seq<string>)
    requires ReadPrefix(t, before, NOTHING).Some? && Rewrites(t, from, to)
    ensures ParseCurl(t, [program] + (before + (from + rest))) == ParseCurl(t, [program] + (before + (to + rest)))
  {
    RewritingKeepsMeaning(t, before, from, to, rest);
    assert ([program] + (before + (from + rest)))[1..] == before + (from + rest);
    assert ([program] + (before + (to + rest)))[1..] == before + (to + rest);
  }
}
