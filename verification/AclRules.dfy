/**
 * The effect of ACL command rules on a selector, and why the log of rules may forget
 * the ones a later rule overrides.
 *
 * A rule is logged by its lower-case text: a command, a subcommand written
 * `container|sub`, a category written `@name`, or `command|first-arg`.
 */
module AclRules {
  import opened Prelude

  // USER_COMMAND_BITS_COUNT and the bit no command ever gets.
  const BITS := 1024
  const RESERVED := 1023

  // isSub: a subcommand of a container. subs: the full names of a container's subcommands.
  datatype Command = Command(id: nat, cats: set<string>, subs: set<string>, isSub: bool)

  type Table = map<string, Command>

  predicate NoBar(s: string) {
    '|' !in s
  }

  // `k` is the full name of a subcommand of `p`.
  predicate SubName(p: string, k: string) {
    |k| > |p| + 1 && k[..|p|] == p && k[|p|] == '|' && NoBar(k[|p| + 1..])
  }

  // A command table: distinct identifiers, none of them the reserved one, one level of
  // subcommands, names that are neither categories nor empty.
  ghost predicate TableOk(t: Table) {
    && (forall k <- t :: k != "" && k[0] != '@' && t[k].id != RESERVED)
    && (forall k, l | k in t && l in t && t[k].id == t[l].id :: k == l)
    && (forall k <- t | !t[k].isSub :: NoBar(k))
    && (forall k <- t, s <- t[k].subs :: s in t && t[s].isSub && SubName(k, s))
    && (forall k <- t | t[k].isSub :: t[k].subs == {} && exists p :: p in t && !t[p].isSub && k in t[p].subs)
  }

  datatype Rule = Rule(allow: bool, text: string)

  // Bits set in the selector, and the allowed (command id, first argument) pairs.
  datatype Perms = Perms(bits: set<nat>, args: set<(nat, string)>)

  datatype Effect =
    | SetBits(ids: set<nat>, resets: set<nat>, allow: bool)
    | AddArg(id: nat, arg: string)

  // Whether the bitmap has a bit for this identifier; others are ignored.
  predicate InBitmap(id: nat) {
    id < BITS
  }

  function AllBits(): set<nat> {
    set i: nat | 0 <= i < BITS && InBitmap(i)
  }

  // ---------- what a rule does ----------

  // Allowing or denying a command also applies to its subcommands.
  function PermIds(t: Table, k: string): set<nat>
    requires k in t
  {
    set i | i in {t[k].id} + (set s | s in t[k].subs && s in t :: t[s].id) && InBitmap(i)
  }

  function InCategory(t: Table, cat: string): set<string> {
    set k | k in t && cat in t[k].cats
  }

  function CategoryIds(t: Table, cat: string): set<nat> {
    set k, i | k in InCategory(t, cat) && i in PermIds(t, k) :: i
  }

  function CategoryResets(t: Table, cat: string): set<nat> {
    set k | k in InCategory(t, cat) :: t[k].id
  }

  // The last '|' of a text, as strrchr finds it.
  function LastBar(s: string): (r: Option<nat>)
    ensures r.Some? ==> r.value < |s| && s[r.value] == '|' && NoBar(s[r.value + 1..])
    ensures r.None? ==> NoBar(s)
  {
    if s == "" then None
    else if s[|s| - 1] == '|' then Some(|s| - 1)
    else
      var r := LastBar(s[..|s| - 1]);
      assert r.Some? ==> s[r.value + 1..] == s[..|s| - 1][r.value + 1..] + [s[|s| - 1]];
      assert r.None? ==> s == s[..|s| - 1] + [s[|s| - 1]];
      r
  }

  /**
   * The meaning of a rule, for lower-case text, or None where ACLSetSelector refuses it.
   * `cats` are the known category names.
   */
  function EffectOf(t: Table, cats: set<string>, r: Rule): Option<Effect> {
    var x := r.text;
    if x == "" then None
    else if x[0] == '@' then
      if x[1..] in cats then Some(SetBits(CategoryIds(t, x[1..]), CategoryResets(t, x[1..]), r.allow)) else None
    else if x in t then Some(SetBits(PermIds(t, x), {t[x].id}, r.allow))
    else if !r.allow then None
    else
      var b := LastBar(x);
      if b.None? then None
      else
        var c, arg := x[..b.value], x[b.value + 1..];
        if c in t && !t[c].isSub && t[c].subs == {} && arg != "" then Some(AddArg(t[c].id, arg)) else None
  }

  function Apply(e: Effect, p: Perms): Perms {
    match e
    case SetBits(ids, resets, allow) =>
      Perms(if allow then p.bits + ids else p.bits - ids, set a | a in p.args && a.0 !in resets)
    case AddArg(id, arg) => p.(args := p.args + {(id, arg)})
  }

  function Start(all: bool): Perms {
    Perms(if all then AllBits() else {}, {})
  }

  predicate AllMean(t: Table, cats: set<string>, rules: seq<Rule>) {
    forall r <- rules :: EffectOf(t, cats, r).Some?
  }

  function Replay(t: Table, cats: set<string>, p: Perms, rules: seq<Rule>): Perms
    requires AllMean(t, cats, rules)
  {
    if rules == [] then p
    else
      var n := |rules| - 1;
      Apply(EffectOf(t, cats, rules[n]).value, Replay(t, cats, p, rules[..n]))
  }

  // ---------- overriding ----------

  // A logged rule matches a new one verbatim or as one of its subcommands or first args.
  predicate Overrides(x: string, was: string) {
    was == x || (|was| > |x| && was[..|x|] == x && was[|x|] == '|')
  }

  function Surviving(rules: seq<Rule>, x: string): seq<Rule> {
    if rules == [] then []
    else
      var n := |rules| - 1;
      Surviving(rules[..n], x) + if Overrides(x, rules[n].text) then [] else [rules[n]]
  }

  lemma {:induction false} SurvivingFacts(rules: seq<Rule>, x: string)
    ensures forall k <- Surviving(rules, x) :: k in rules && !Overrides(x, k.text)
  {
    if rules != [] {
      SurvivingFacts(rules[..|rules| - 1], x);
    }
  }

  // First arguments are only ever kept for plain commands.
  ghost predicate ArgsOk(t: Table, p: Perms) {
    forall a <- p.args :: exists k :: k in t && !t[k].isSub && t[k].subs == {} && t[k].id == a.0
  }

  // `e` erases every difference between `p` and `q`.
  ghost predicate Agree(e: Effect, p: Perms, q: Perms) {
    match e
    case SetBits(ids, resets, _) =>
      && (forall i: nat | i !in ids :: i in p.bits <==> i in q.bits)
      && (forall a: (nat, string) | a.0 !in resets :: a in p.args <==> a in q.args)
    case AddArg(id, arg) =>
      p.bits == q.bits && forall a: (nat, string) | a != (id, arg) :: a in p.args <==> a in q.args
  }

  lemma AgreeMeans(e: Effect, p: Perms, q: Perms)
    requires Agree(e, p, q)
    ensures Apply(e, p) == Apply(e, q)
  {
    match e {
      case SetBits(ids, resets, allow) =>
        assert p.bits + ids == q.bits + ids && p.bits - ids == q.bits - ids;
        assert Apply(e, p).args == Apply(e, q).args;
      case AddArg(id, arg) =>
        assert p.args + {(id, arg)} == q.args + {(id, arg)};
    }
  }

  // Agreement is not lost by applying the same effect to both.
  lemma AgreeStays(e: Effect, f: Effect, p: Perms, q: Perms)
    requires Agree(e, p, q)
    ensures Agree(e, Apply(f, p), Apply(f, q))
  {
  }

  lemma ArgsOkStays(t: Table, cats: set<string>, r: Rule, p: Perms)
    requires ArgsOk(t, p) && EffectOf(t, cats, r).Some?
    ensures ArgsOk(t, Apply(EffectOf(t, cats, r).value, p))
  {
  }

  lemma NoBarBefore(s: string, b: nat)
    requires b <= |s| && NoBar(s[..b])
    ensures forall i | 0 <= i < b :: s[i] != '|'
  {
    assert forall i | 0 <= i < b :: s[i] == s[..b][i];
  }

  lemma NoBarAfter(s: string, b: nat)
    requires b <= |s| && NoBar(s[b..])
    ensures forall i | b <= i < |s| :: s[i] != '|'
  {
    assert forall i | b <= i < |s| :: s[i] == s[b..][i - b];
  }

  // A command name that ends at a bar of a longer text is the text up to its first bar.
  lemma FirstBar(t: Table, s: string, b: nat)
    requires TableOk(t) && b < |s| && s[..b] in t && !t[s[..b]].isSub
    ensures forall i | 0 <= i < b :: s[i] != '|'
  {
    NoBarBefore(s, b);
  }

  // A table name with a bar is a subcommand of the name before that bar.
  lemma NameWithBar(t: Table, s: string, b: nat)
    requires TableOk(t) && s in t && b < |s| && s[b] == '|'
    ensures s[..b] in t && !t[s[..b]].isSub && s in t[s[..b]].subs && NoBar(s[b + 1..]) && b + 1 < |s|
    ensures t[s].isSub && t[s].subs == {}
  {
    var q :| q in t && !t[q].isSub && s in t[q].subs;
    FirstBar(t, s, |q|);
    NoBarAfter(s, |q| + 1);
  }

  // What an overridden rule did is erased by the rule that overrides it.
  lemma OverriddenErased(t: Table, cats: set<string>, r: Rule, was: Rule, p: Perms)
    requires TableOk(t) && EffectOf(t, cats, r).Some? && EffectOf(t, cats, was).Some? && ArgsOk(t, p)
    requires (forall c <- cats :: NoBar(c)) && Overrides(r.text, was.text)
    ensures Agree(EffectOf(t, cats, r).value, Apply(EffectOf(t, cats, was).value, p), p)
  {
    var x, y := r.text, was.text;
    if x == y {
      SameTextErased(t, cats, r, was, p);
    } else if y[0] == '@' {
      NoBarAfter(y, 1);
      assert false;
    } else if y in t {
      SubErased(t, cats, r, was, p);
    } else {
      ArgErased(t, cats, r, was, p);
    }
  }

  lemma SameTextErased(t: Table, cats: set<string>, r: Rule, was: Rule, p: Perms)
    requires EffectOf(t, cats, r).Some? && EffectOf(t, cats, was).Some? && r.text == was.text
    ensures Agree(EffectOf(t, cats, r).value, Apply(EffectOf(t, cats, was).value, p), p)
  {
  }

  // The longer text has a bar, so the shorter one is a command, not a first argument.
  lemma ShorterIsCommand(t: Table, cats: set<string>, r: Rule, was: Rule)
    requires TableOk(t) && EffectOf(t, cats, r).Some? && EffectOf(t, cats, was).Some?
    requires r.text != was.text && Overrides(r.text, was.text) && was.text[0] != '@'
    ensures r.text in t && !t[r.text].isSub
    ensures was.text in t ==> was.text in t[r.text].subs && PermIds(t, was.text) <= PermIds(t, r.text)
    ensures was.text !in t ==> LastBar(was.text) == Some(|r.text|)
  {
    var x, y := r.text, was.text;
    if y in t {
      NameWithBar(t, y, |x|);
    } else {
      var d := LastBar(y).value;
      FirstBar(t, y, d);
      NoBarAfter(y, d + 1);
      assert d == |x|;
    }
  }

  lemma SubErased(t: Table, cats: set<string>, r: Rule, was: Rule, p: Perms)
    requires TableOk(t) && EffectOf(t, cats, r).Some? && EffectOf(t, cats, was).Some? && ArgsOk(t, p)
    requires r.text != was.text && Overrides(r.text, was.text) && was.text in t && was.text[0] != '@'
    ensures Agree(EffectOf(t, cats, r).value, Apply(EffectOf(t, cats, was).value, p), p)
  {
    ShorterIsCommand(t, cats, r, was);
    NameWithBar(t, was.text, |r.text|);
    SubHasNoArgs(t, was.text, p);
  }

  lemma SubHasNoArgs(t: Table, s: string, p: Perms)
    requires TableOk(t) && ArgsOk(t, p) && s in t && t[s].isSub
    ensures forall a <- p.args :: a.0 != t[s].id
  {
    forall a <- p.args
      ensures a.0 != t[s].id
    {
      var k :| k in t && !t[k].isSub && t[k].subs == {} && t[k].id == a.0;
    }
  }

  lemma ArgErased(t: Table, cats: set<string>, r: Rule, was: Rule, p: Perms)
    requires TableOk(t) && EffectOf(t, cats, r).Some? && EffectOf(t, cats, was).Some?
    requires r.text != was.text && Overrides(r.text, was.text) && was.text !in t && was.text[0] != '@'
    ensures Agree(EffectOf(t, cats, r).value, Apply(EffectOf(t, cats, was).value, p), p)
  {
    ShorterIsCommand(t, cats, r, was);
  }

  // ---------- the log may forget ----------

  lemma {:induction false} ReplayArgsOk(t: Table, cats: set<string>, p: Perms, rules: seq<Rule>)
    requires ArgsOk(t, p) && AllMean(t, cats, rules)
    ensures ArgsOk(t, Replay(t, cats, p, rules))
  {
    if rules != [] {
      var n := |rules| - 1;
      ReplayArgsOk(t, cats, p, rules[..n]);
      ArgsOkStays(t, cats, rules[n], Replay(t, cats, p, rules[..n]));
    }
  }

  /**
   * Dropping the rules that `r` overrides changes nothing that `r` does not erase,
   * wherever in the log they stand and whatever stands between.
   */
  lemma {:induction false} DroppedAgree(t: Table, cats: set<string>, p: Perms, rules: seq<Rule>, r: Rule)
    requires TableOk(t) && (forall c <- cats :: NoBar(c)) && ArgsOk(t, p)
    requires AllMean(t, cats, rules) && EffectOf(t, cats, r).Some?
    ensures AllMean(t, cats, Surviving(rules, r.text))
    ensures Agree(EffectOf(t, cats, r).value, Replay(t, cats, p, rules), Replay(t, cats, p, Surviving(rules, r.text)))
  {
    var e := EffectOf(t, cats, r).value;
    SurvivingFacts(rules, r.text);
    if rules != [] {
      var n := |rules| - 1;
      var init, last := rules[..n], rules[n];
      DroppedAgree(t, cats, p, init, r);
      var f := EffectOf(t, cats, last).value;
      var full, kept := Replay(t, cats, p, init), Replay(t, cats, p, Surviving(init, r.text));
      if Overrides(r.text, last.text) {
        assert Surviving(rules, r.text) == Surviving(init, r.text);
        ReplayArgsOk(t, cats, p, init);
        OverriddenErased(t, cats, r, last, full);
        AgreeTrans(e, Apply(f, full), full, kept);
      } else {
        AgreeStays(e, f, full, kept);
        var s := Surviving(rules, r.text);
        assert s[..|s| - 1] == Surviving(init, r.text);
      }
    }
  }

  lemma AgreeTrans(e: Effect, p: Perms, q: Perms, s: Perms)
    requires Agree(e, p, q) && Agree(e, q, s)
    ensures Agree(e, p, s)
  {
  }

  // The log after ACLUpdateCommandRules.
  function Logged(rules: seq<Rule>, r: Rule): seq<Rule> {
    Surviving(rules, r.text) + [r]
  }

  /**
   * The theorem of the log: after logging `r`, replaying gives the permissions that
   * applying `r` gave, although the rules it overrides are gone.
   */
  lemma LoggedReplays(t: Table, cats: set<string>, p: Perms, rules: seq<Rule>, r: Rule)
    requires TableOk(t) && (forall c <- cats :: NoBar(c)) && ArgsOk(t, p)
    requires AllMean(t, cats, rules) && EffectOf(t, cats, r).Some?
    ensures AllMean(t, cats, Logged(rules, r))
    ensures Replay(t, cats, p, Logged(rules, r)) == Apply(EffectOf(t, cats, r).value, Replay(t, cats, p, rules))
  {
    DroppedAgree(t, cats, p, rules, r);
    var s := Logged(rules, r);
    assert s[..|s| - 1] == Surviving(rules, r.text);
    AgreeMeans(EffectOf(t, cats, r).value, Replay(t, cats, p, rules), Replay(t, cats, p, Surviving(rules, r.text)));
  }

  // ---------- the log is a fixed point of replaying it ----------

  // No rule is overridden by a later one.
  predicate Compact(rules: seq<Rule>) {
    forall i, j | 0 <= i < j < |rules| :: !Overrides(rules[j].text, rules[i].text)
  }

  lemma {:induction false} SurvivingIsCompact(rules: seq<Rule>, x: string)
    requires Compact(rules)
    ensures Compact(Surviving(rules, x))
  {
    if rules != [] {
      var n := |rules| - 1;
      SurvivingIsCompact(rules[..n], x);
      var s := Surviving(rules[..n], x);
      SurvivingFacts(rules[..n], x);
      forall i | 0 <= i < |s|
        ensures !Overrides(rules[n].text, s[i].text)
      {
        assert s[i] in rules[..n];
      }
    }
  }

  lemma {:induction false} AllSurvive(rules: seq<Rule>, x: string)
    requires forall i | 0 <= i < |rules| :: !Overrides(x, rules[i].text)
    ensures Surviving(rules, x) == rules
  {
    hide Overrides;
    if rules != [] {
      var n := |rules| - 1;
      var init := rules[..n];
      AllSurvive(init, x);
      assert Surviving(rules, x) == init + [rules[n]];
    }
  }

  lemma LoggedIsCompact(rules: seq<Rule>, r: Rule)
    requires Compact(rules)
    ensures Compact(Logged(rules, r))
  {
    SurvivingIsCompact(rules, r.text);
    SurvivingFacts(rules, r.text);
    var s := Surviving(rules, r.text);
    assert forall i | 0 <= i < |s| :: s[i] in s;
  }

  /**
   * Exactly which rules a new one displaces: the one with the same text and those of its
   * subcommands and first arguments. All others stay, and the new one comes last.
   */
  lemma LoggedDisplaces(rules: seq<Rule>, r: Rule, k: Rule)
    ensures Logged(rules, r)[|Logged(rules, r)| - 1] == r
    ensures k in Logged(rules, r)[..|Logged(rules, r)| - 1] <==> k in rules && k.text != r.text && !(r.text + "|" <= k.text)
  {
    OverridesIff(r.text, k.text);
    SurvivingIff(rules, r.text, k);
    hide Overrides, Surviving;
    assert Logged(rules, r)[..|Logged(rules, r)| - 1] == Surviving(rules, r.text);
  }

  lemma OverridesIff(x: string, was: string)
    ensures Overrides(x, was) <==> was == x || x + "|" <= was
  {
    if |was| > |x| {
      assert x + "|" <= was <==> was[..|x| + 1] == x + "|";
      assert was[..|x| + 1] == was[..|x|] + [was[|x|]];
    }
  }

  lemma {:induction false} SurvivingIff(rules: seq<Rule>, x: string, k: Rule)
    ensures k in Surviving(rules, x) <==> k in rules && !Overrides(x, k.text)
  {
    if rules != [] {
      hide Overrides;
      var n := |rules| - 1;
      SurvivingIff(rules[..n], x, k);
      assert rules == rules[..n] + [rules[n]];
    }
  }

  function LogAll(log: seq<Rule>, rules: seq<Rule>): seq<Rule> {
    if rules == [] then log else Logged(LogAll(log, rules[..|rules| - 1]), rules[|rules| - 1])
  }

  // Recomputing a selector from its own log writes the same log again.
  lemma {:induction false} RelogFixedPoint(rules: seq<Rule>)
    requires Compact(rules)
    ensures LogAll([], rules) == rules
  {
    if rules != [] {
      var n := |rules| - 1;
      RelogFixedPoint(rules[..n]);
      AllSurvive(rules[..n], rules[n].text);
      assert rules[..n] + [rules[n]] == rules;
    }
  }

  // The reserved bit belongs to no command, so only +@all and -@all touch it.
  lemma ReservedUntouched(t: Table, cats: set<string>, r: Rule, p: Perms)
    requires TableOk(t) && EffectOf(t, cats, r).Some?
    ensures RESERVED in Apply(EffectOf(t, cats, r).value, p).bits <==> RESERVED in p.bits
  {
    assert forall k <- t :: RESERVED !in PermIds(t, k);
  }

  // ---------- every run of selector operations ----------

  // +@all, -@all and their aliases, or a rule.
  datatype Op = Reset(all: bool) | Add(rule: Rule)

  datatype State = State(perms: Perms, rules: seq<Rule>)

  function Step(t: Table, cats: set<string>, s: State, op: Op): State {
    match op
    case Reset(all) => State(Start(all), [])
    case Add(r) =>
      if EffectOf(t, cats, r).None? then s
      else State(Apply(EffectOf(t, cats, r).value, s.perms), Logged(s.rules, r))
  }

  function Steps(t: Table, cats: set<string>, s: State, ops: seq<Op>): State {
    if ops == [] then s else Step(t, cats, Steps(t, cats, s, ops[..|ops| - 1]), ops[|ops| - 1])
  }

  ghost predicate Setting(t: Table, cats: set<string>) {
    TableOk(t) && forall c <- cats :: NoBar(c)
  }

  // The log replays, from +@all or -@all as the reserved bit says, to the permissions.
  ghost predicate Faithful(t: Table, cats: set<string>, s: State) {
    && AllMean(t, cats, s.rules)
    && Replay(t, cats, Start(RESERVED in s.perms.bits), s.rules) == s.perms
    && Compact(s.rules)
  }

  lemma StepFaithful(t: Table, cats: set<string>, s: State, op: Op)
    requires Setting(t, cats) && Faithful(t, cats, s)
    ensures Faithful(t, cats, Step(t, cats, s, op))
  {
    if op.Reset? {
      assert InBitmap(RESERVED);
    } else if EffectOf(t, cats, op.rule).Some? {
      LoggedReplays(t, cats, Start(RESERVED in s.perms.bits), s.rules, op.rule);
      LoggedIsCompact(s.rules, op.rule);
      ReservedUntouched(t, cats, op.rule, s.perms);
    }
  }

  /**
   * After any sequence of operations on a new selector the log replays to exactly the
   * bitmap and the first arguments in force, and holds no overridden rule.
   */
  lemma {:induction false} RunFaithful(t: Table, cats: set<string>, all: bool, ops: seq<Op>)
    requires Setting(t, cats)
    ensures Faithful(t, cats, Steps(t, cats, State(Start(all), []), ops))
  {
    if ops == [] {
      assert InBitmap(RESERVED);
    } else {
      var n := |ops| - 1;
      RunFaithful(t, cats, all, ops[..n]);
      StepFaithful(t, cats, Steps(t, cats, State(Start(all), []), ops[..n]), ops[n]);
    }
  }
}
