/**
 * An ACL selector: its command bitmap, the allowed first arguments, and the text of
 * the rules that made them. `Describe` and `Recompute` replay that text, and abort the
 * server if it does not give the bitmap back.
 */
module AclSelector {
  import opened Prelude
  import opened AclRules
  import opened AclText

  lemma LowerFacts(s: string)
    ensures Lower(Lower(s)) == Lower(s) && Plain(Lower(s)) == Plain(s)
    ensures s != "" ==> Lower(s[1..]) == Lower(s)[1..]
  {
    assert forall i | 0 <= i < |s| :: Special(s[i]) == Special(Lower(s)[i]);
    assert Plain(s) <==> forall i | 0 <= i < |s| :: !Special(s[i]);
    assert Plain(Lower(s)) <==> forall i | 0 <= i < |s| :: !Special(Lower(s)[i]);
  }

  // Names are lower case and hold neither blanks nor quotes; "all" is no category.
  ghost predicate Vocabulary(t: Table, cats: set<string>) {
    && Setting(t, cats)
    && (forall k <- t :: Lower(k) == k && Plain(k))
    && (forall c <- cats :: Lower(c) == c && Plain(c))
    && "all" !in cats
  }

  // A logged rule in the form the text keeps it.
  predicate WellWritten(rules: seq<Rule>) {
    forall r <- rules :: Plain(r.text) && Lower(r.text) == r.text
  }

  // Foreign operations are about keys and channels.
  datatype Parsed = Whole(all: bool) | Single(rule: Rule) | Foreign | Malformed

  function Parse(op: string): Parsed {
    var l := Lower(op);
    if l in {"allkeys", "~*", "resetkeys", "allchannels", "&*", "resetchannels"} then Foreign
    else if l == "allcommands" || l == "+@all" then Whole(true)
    else if l == "nocommands" || l == "-@all" then Whole(false)
    else if op == "" then Malformed
    else if op[0] == '~' || op[0] == '%' || op[0] == '&' then Foreign
    else if op[0] == '+' || op[0] == '-' then Single(Rule(op[0] == '+', l[1..]))
    else Malformed
  }

  lemma SingleOf(op: string)
    requires Parse(op).Single?
    ensures op != "" && Parse(op).rule == Rule(op[0] == '+', Lower(op[1..])) && (op[0] == '+' || op[0] == '-')
  {
    LowerFacts(op);
  }

  // A logged rule, printed, is read back as itself.
  lemma ParseRendered(t: Table, cats: set<string>, r: Rule)
    requires Vocabulary(t, cats) && EffectOf(t, cats, r).Some? && Plain(r.text) && Lower(r.text) == r.text
    ensures Parse(Render(r)) == Single(r) && Plain(Render(r)) && Starts(Render(r))
  {
    var op := Render(r);
    LowerFacts(op);
    assert op[1..] == r.text && Lower(op)[0] == op[0];
    assert "@all"[1..] == "all";
    assert Lower(op)[1..] == r.text;
  }

  datatype Outcome = Done | NotFound | ChildOfChild | Invalid | NotAboutCommands

  function Args(firstArgs: map<nat, seq<string>>): set<(nat, string)> {
    set id, a | id in firstArgs && a in firstArgs[id] :: (id, Lower(a))
  }

  lemma ArgsWithout(firstArgs: map<nat, seq<string>>, gone: set<nat>)
    ensures Args(firstArgs - gone) == set a | a in Args(firstArgs) && a.0 !in gone
  {
    forall x | x in Args(firstArgs) && x.0 !in gone
      ensures x in Args(firstArgs - gone)
    {
      var i, b :| i in firstArgs && b in firstArgs[i] && x == (i, Lower(b));
      assert i in firstArgs - gone;
    }
  }

  lemma SetBitsSeen(bits: set<nat>, firstArgs: map<nat, seq<string>>, ids: set<nat>, resets: set<nat>, allow: bool)
    ensures Apply(SetBits(ids, resets, allow), Perms(bits, Args(firstArgs)))
      == Perms(if allow then bits + ids else bits - ids, Args(firstArgs - resets))
  {
    ArgsWithout(firstArgs, resets);
  }

  lemma ArgsWith(firstArgs: map<nat, seq<string>>, id: nat, items: seq<string>, a: string)
    requires items == if id in firstArgs then firstArgs[id] else []
    ensures Args(firstArgs[id := items + [a]]) == Args(firstArgs) + {(id, Lower(a))}
  {
    var m := firstArgs[id := items + [a]];
    forall x | x in Args(firstArgs) + {(id, Lower(a))}
      ensures x in Args(m)
    {
      if x == (id, Lower(a)) {
        assert a in m[id];
      } else {
        var i, b :| i in firstArgs && b in firstArgs[i] && x == (i, Lower(b));
        assert b in m[i];
      }
    }
  }

  // A blank or a quote can only come in with a first argument.
  lemma NamedIsPlain(t: Table, cats: set<string>, r: Rule)
    requires Vocabulary(t, cats) && EffectOf(t, cats, r).Some? && EffectOf(t, cats, r).value.SetBits?
    ensures Plain(r.text)
  {
    if r.text !in t {
      assert r.text == [r.text[0]] + r.text[1..];
    }
  }

  lemma WellWrittenLogged(rules: seq<Rule>, r: Rule)
    requires WellWritten(rules) && Plain(r.text) && Lower(r.text) == r.text
    ensures WellWritten(Logged(rules, r)) && Spaceless(rules)
  {
    SurvivingFacts(rules, r.text);
  }

  // The text after a rule is appended.
  lemma JoinLogged(rules: seq<Rule>, r: Rule, kept: string)
    requires kept == Join(Tokens(Surviving(rules, r.text)))
    ensures Join(Tokens(Logged(rules, r))) == (if kept == "" then "" else kept + " ") + Render(r)
  {
    var ts := Tokens(Surviving(rules, r.text));
    TokensMore(Surviving(rules, r.text), r);
    TokensFacts(Surviving(rules, r.text));
    LeadMore(ts, Render(r));
    if ts != [] {
      var n := |ts| - 1;
      assert ts == ts[..n] + [ts[n]];
      LeadMore(ts[..n], ts[n]);
    }
  }

  // ---------- what an operation is for ----------

  // The bitmap's bits of a command and of its subcommands.
  predicate Carries(t: Table, c: string, i: nat)
    requires c in t
  {
    i < 1024 && (i == t[c].id || exists s :: s in t[c].subs && s in t && i == t[s].id)
  }

  // +c and -c: exactly those bits are set or cleared, and c's first arguments are forgotten.
  ghost predicate CommandObeyed(t: Table, c: string, allow: bool, was: Perms, now: Perms)
    requires c in t
  {
    && (forall i: nat :: i in now.bits <==> if Carries(t, c, i) then allow else i in was.bits)
    && (forall a: (nat, string) :: a in now.args <==> a in was.args && a.0 != t[c].id)
  }

  // +@g and -@g: the same for every command of the category.
  ghost predicate CategoryObeyed(t: Table, g: string, allow: bool, was: Perms, now: Perms) {
    && (forall i: nat :: i in now.bits <==> if exists c :: c in t && g in t[c].cats && Carries(t, c, i) then allow else i in was.bits)
    && (forall a: (nat, string) :: a in now.args <==> a in was.args && !exists c :: c in t && g in t[c].cats && a.0 == t[c].id)
  }

  // +c|arg for a command without subcommands: one first argument more, and no bit changes.
  predicate FirstArgNamed(t: Table, c: string, arg: string) {
    c in t && !t[c].isSub && t[c].subs == {} && arg != "" && NoBar(arg) && c + "|" + arg !in t
  }

  /**
   * What the text of an operation promises, on bits and first arguments: commands,
   * categories, everything, nothing, a first argument. All other operations on commands are
   * refused.
   */
  ghost predicate Obeyed(t: Table, cats: set<string>, op: string, done: bool, was: Perms, now: Perms) {
    var l := Lower(op);
    && (forall c <- t | l == "+" + c :: done && CommandObeyed(t, c, true, was, now))
    && (forall c <- t | l == "-" + c :: done && CommandObeyed(t, c, false, was, now))
    && (forall g <- cats | l == "+@" + g :: done && CategoryObeyed(t, g, true, was, now))
    && (forall g <- cats | l == "-@" + g :: done && CategoryObeyed(t, g, false, was, now))
    && (l == "+@all" || l == "allcommands" ==> done && now.args == {} && forall i: nat :: i in now.bits <==> i < 1024)
    && (l == "-@all" || l == "nocommands" ==> done && now.args == {} && now.bits == {})
    && (forall c <- t, arg: string | l == "+" + c + "|" + arg && FirstArgNamed(t, c, arg) ::
          done && now.bits == was.bits && forall a: (nat, string) :: a in now.args <==> a in was.args || a == (t[c].id, arg))
    && (done ==>
          || l in {"+@all", "allcommands", "-@all", "nocommands"}
          || (exists c :: c in t && (l == "+" + c || l == "-" + c))
          || (exists g :: g in cats && (l == "+@" + g || l == "-@" + g))
          || (exists c, arg: string :: FirstArgNamed(t, c, arg) && l == "+" + c + "|" + arg))
    && (!done ==> now == was)
  }

  class Selector {
    const table: Table
    const cats: set<string>
    var bits: set<nat>
    var firstArgs: map<nat, seq<string>>
    var text: string
    ghost var rules: seq<Rule>
    // No accepted operation since the last reset held a blank or a quote.
    ghost var clean: bool

    ghost function View(): Perms
      reads this
    {
      Perms(bits, Args(firstArgs))
    }

    ghost predicate LogOk()
      reads this
    {
      && Faithful(table, cats, State(View(), rules))
      && WellWritten(rules)
      && text == Join(Tokens(rules))
    }

    ghost predicate Valid()
      reads this
    {
      Vocabulary(table, cats) && (clean ==> LogOk())
    }

    constructor (t: Table, cs: set<string>)
      requires Vocabulary(t, cs)
      ensures Valid() && clean && table == t && cats == cs && View() == Start(false) && rules == []
    {
      table, cats := t, cs;
      bits, firstArgs, text := {}, map[], "";
      rules, clean := [], true;
      new;
      StartFaithful(t, cs, false);
      assert View() == Start(false);
    }

    // ACLSetSelectorCommandBit: identifiers beyond the bitmap are ignored.
    method SetBit(id: nat, allow: bool)
      modifies this`bits
      ensures bits == if !InBitmap(id) then old(bits) else if allow then old(bits) + {id} else old(bits) - {id}
    {
      if id < BITS {
        bits := if allow then bits + {id} else bits - {id};
      }
    }

    method ChangePerm(k: string, allow: bool)
      requires k in table && forall s <- table[k].subs :: s in table
      modifies this`bits, this`firstArgs
      ensures bits == if allow then old(bits) + PermIds(table, k) else old(bits) - PermIds(table, k)
      ensures firstArgs == old(firstArgs) - {table[k].id}
    {
      SetBit(table[k].id, allow);
      firstArgs := firstArgs - {table[k].id};
      var todo := table[k].subs;
      ghost var ids := if InBitmap(table[k].id) then {table[k].id} else {};
      while todo != {}
        invariant todo <= table[k].subs && firstArgs == old(firstArgs) - {table[k].id}
        invariant bits == if allow then old(bits) + ids else old(bits) - ids
        invariant ids <= PermIds(table, k)
        invariant forall i <- PermIds(table, k) :: i in ids || exists s :: s in todo && table[s].id == i
      {
        var s :| s in todo;
        SetBit(table[s].id, allow);
        ids := if InBitmap(table[s].id) then ids + {table[s].id} else ids;
        todo := todo - {s};
      }
      assert ids == PermIds(table, k);
    }

    method SetCategory(cat: string, allow: bool)
      requires TableOk(table)
      modifies this`bits, this`firstArgs
      ensures bits == if allow then old(bits) + CategoryIds(table, cat) else old(bits) - CategoryIds(table, cat)
      ensures firstArgs == old(firstArgs) - CategoryResets(table, cat)
    {
      hide TableOk, PermIds;
      var todo := table.Keys;
      ghost var ids, gone := {}, {};
      while todo != {}
        invariant todo <= table.Keys
        invariant firstArgs == old(firstArgs) - gone
        invariant bits == if allow then old(bits) + ids else old(bits) - ids
        invariant forall i <- ids :: i in CategoryIds(table, cat)
        invariant forall i <- gone :: i in CategoryResets(table, cat)
        invariant forall k <- InCategory(table, cat) :: k in todo || (PermIds(table, k) <= ids && table[k].id in gone)
      {
        var k :| k in todo;
        if cat in table[k].cats {
          assert k in InCategory(table, cat);
          SubsListed(table, k);
          ChangePerm(k, allow);
          ids, gone := ids + PermIds(table, k), gone + {table[k].id};
        }
        todo := todo - {k};
      }
      assert ids == CategoryIds(table, cat) && gone == CategoryResets(table, cat);
    }

    // ACLAddAllowedFirstArg: first arguments are compared without regard to case.
    method AddFirstArg(id: nat, arg: string)
      modifies this`firstArgs
      ensures Args(firstArgs) == old(Args(firstArgs)) + {(id, Lower(arg))}
    {
      var items := if id in firstArgs then firstArgs[id] else [];
      var i := 0;
      while i < |items|
        invariant 0 <= i <= |items|
        invariant firstArgs == old(firstArgs)
      {
        if Lower(items[i]) == Lower(arg) {
          assert items[i] in firstArgs[id];
          return;
        }
        i := i + 1;
      }
      ArgsWith(firstArgs, id, items, arg);
      firstArgs := firstArgs[id := items + [arg]];
    }

    // ACLUpdateCommandRules on an already lower-case rule.
    method UpdateRules(r: Rule)
      modifies this`text, this`rules, this`clean
      ensures clean == (old(clean) && Plain(r.text)) && rules == Logged(old(rules), r)
      ensures old(text == Join(Tokens(rules)) && WellWritten(rules)) && Plain(r.text) && Lower(r.text) == r.text ==>
        text == Join(Tokens(rules)) && WellWritten(rules)
    {
      hide Tokens, Join, WellWritten, Logged, Spaceless, Plain;
      ghost var was := rules;
      text := RemoveCommandRule(text, r.text, rules);
      if WellWritten(was) && Plain(r.text) && Lower(r.text) == r.text {
        WellWrittenLogged(was, r);
      }
      if text == Join(Tokens(Surviving(was, r.text))) {
        JoinLogged(was, r, text);
      }
      if text != "" {
        text := text + " ";
      }
      text := text + Render(r);
      rules := Logged(rules, r);
      clean := clean && Plain(r.text);
    }

    method ResetAll(all: bool)
      requires Valid()
      modifies this`bits, this`firstArgs, this`text, this`rules, this`clean
      ensures Valid() && clean && View() == Start(all) && rules == [] && text == ""
    {
      bits := if all then AllBits() else {};
      firstArgs, text := map[], "";
      rules, clean := [], true;
      StartFaithful(table, cats, all);
      assert View() == Start(all);
    }

    /**
     * The command operations of ACLSetSelector. A refused operation changes nothing; an
     * accepted one has exactly the effect of its rule.
     */
    method SetSelector(op: string) returns (out: Outcome)
      requires Valid()
      modifies this`bits, this`firstArgs, this`text, this`rules, this`clean
      ensures Valid()
      ensures Parse(op).Whole? ==> out == Done && clean && View() == Start(Parse(op).all) && rules == [] && text == ""
      ensures Parse(op).Single? ==> (out == Done <==> EffectOf(table, cats, Parse(op).rule).Some?)
      ensures Parse(op).Single? && out == Done ==>
        && View() == Apply(EffectOf(table, cats, Parse(op).rule).value, old(View()))
        && rules == Logged(old(rules), Parse(op).rule)
        && clean == (old(clean) && Plain(Parse(op).rule.text))
      ensures out == NotAboutCommands <==> Parse(op).Foreign?
      ensures Parse(op).Malformed? ==> out == Invalid
      ensures out != Done ==> bits == old(bits) && firstArgs == old(firstArgs) && text == old(text) && rules == old(rules) && clean == old(clean)
      ensures Obeyed(table, cats, op, out == Done, old(View()), View())
    {
      ghost var was := View();
      SelectorObeys(table, cats, op, was);
      OthersCarryNothing(table, cats, op, was);
      hide Valid, LogOk, Vocabulary, Obeyed, Parse, EffectOf, Apply, Start;
      match Parse(op)
      case Foreign => out := NotAboutCommands;
      case Malformed => out := Invalid;
      case Whole(all) =>
        ResetAll(all);
        out := Done;
      case Single(r) =>
        SingleOf(op);
        out := SetRule(r, op[1..]);
    }

    // The effect of a rule, given as the client wrote it, on the bitmap and the first arguments.
    method ChangeByRule(r: Rule, raw: string) returns (out: Outcome)
      requires Setting(table, cats) && Lower(raw) == r.text
      modifies this`bits, this`firstArgs
      ensures out != NotAboutCommands
      ensures out == Done <==> EffectOf(table, cats, r).Some?
      ensures out == Done ==> View() == Apply(EffectOf(table, cats, r).value, old(View()))
      ensures out != Done ==> bits == old(bits) && firstArgs == old(firstArgs)
    {
      hide TableOk, CategoryIds, CategoryResets, PermIds;
      var x := r.text;
      if x == "" {
        return NotFound;
      }
      if x[0] == '@' {
        if x[1..] !in cats {
          return NotFound;
        }
        SetCategory(x[1..], r.allow);
        SetBitsSeen(old(bits), old(firstArgs), CategoryIds(table, x[1..]), CategoryResets(table, x[1..]), r.allow);
      } else if !r.allow || LastBar(x).None? {
        if x !in table {
          return NotFound;
        }
        SubsListed(table, x);
        ChangePerm(x, r.allow);
        SetBitsSeen(old(bits), old(firstArgs), PermIds(table, x), {table[x].id}, r.allow);
      } else {
        var b := LastBar(x).value;
        var c, arg := x[..b], x[b + 1..];
        SplitName(table, x, b);
        if c !in table {
          return NotFound;
        }
        if table[c].isSub {
          return ChildOfChild;
        }
        if arg == "" {
          return Invalid;
        }
        if table[c].subs != {} {
          if x !in table {
            return NotFound;
          }
          SubsListed(table, x);
          ChangePerm(x, true);
          SetBitsSeen(old(bits), old(firstArgs), PermIds(table, x), {table[x].id}, true);
        } else {
          assert Lower(raw[b + 1..]) == arg;
          AddFirstArg(table[c].id, raw[b + 1..]);
        }
      }
      out := Done;
    }

    method SetRule(r: Rule, raw: string) returns (out: Outcome)
      requires Valid() && Lower(raw) == r.text
      modifies this`bits, this`firstArgs, this`text, this`rules, this`clean
      ensures Valid() && out != NotAboutCommands
      ensures out == Done <==> EffectOf(table, cats, r).Some?
      ensures out == Done ==>
        && View() == Apply(EffectOf(table, cats, r).value, old(View()))
        && rules == Logged(old(rules), r)
        && clean == (old(clean) && Plain(r.text))
      ensures out != Done ==> bits == old(bits) && firstArgs == old(firstArgs) && text == old(text) && rules == old(rules) && clean == old(clean)
    {
      hide Setting, EffectOf, Faithful, Logged, Plain, WellWritten, Apply;
      LowerFacts(raw);
      out := ChangeByRule(r, raw);
      if out == Done {
        UpdateRules(r);
        if clean {
          StepFaithful(table, cats, old(State(View(), rules)), Add(r));
        }
      }
    }
  }

  // ---------- the effects are what the operations are for ----------

  // What an operation does to permissions, by parsing it and applying its effect.
  function Carried(t: Table, cats: set<string>, op: string, was: Perms): Option<Perms> {
    match Parse(op)
    case Whole(all) => Some(Start(all))
    case Single(r) => if EffectOf(t, cats, r).Some? then Some(Apply(EffectOf(t, cats, r).value, was)) else None
    case _ => None
  }

  lemma PermIdsCarry(t: Table, c: string, i: nat)
    requires c in t
    ensures i in PermIds(t, c) <==> Carries(t, c, i)
  {
  }

  lemma CommandObeys(t: Table, cats: set<string>, c: string, allow: bool, was: Perms)
    requires TableOk(t) && c in t
    ensures var e := EffectOf(t, cats, Rule(allow, c)); e.Some? && CommandObeyed(t, c, allow, was, Apply(e.value, was))
  {
    var e := EffectOf(t, cats, Rule(allow, c));
    forall i: nat
      ensures i in PermIds(t, c) <==> Carries(t, c, i)
    {
      PermIdsCarry(t, c, i);
    }
    hide Carries;
  }

  lemma CategoryObeys(t: Table, cats: set<string>, g: string, allow: bool, was: Perms)
    requires TableOk(t) && g in cats
    ensures var e := EffectOf(t, cats, Rule(allow, "@" + g)); e.Some? && CategoryObeyed(t, g, allow, was, Apply(e.value, was))
  {
    assert ("@" + g)[1..] == g;
    forall i: nat
      ensures i in CategoryIds(t, g) <==> exists c :: c in t && g in t[c].cats && Carries(t, c, i)
    {
      if c :| c in t && g in t[c].cats && Carries(t, c, i) {
        PermIdsCarry(t, c, i);
        assert c in InCategory(t, g);
      }
      if i in CategoryIds(t, g) {
        var c :| c in InCategory(t, g) && i in PermIds(t, c);
        PermIdsCarry(t, c, i);
      }
    }
    forall i: nat
      ensures i in CategoryResets(t, g) <==> exists c :: c in t && g in t[c].cats && i == t[c].id
    {
      if c :| c in t && g in t[c].cats && i == t[c].id {
        assert c in InCategory(t, g);
      }
    }
    hide Carries, CategoryIds, CategoryResets, TableOk, InCategory;
  }

  lemma FirstArgObeys(t: Table, cats: set<string>, c: string, arg: string, was: Perms)
    requires TableOk(t) && FirstArgNamed(t, c, arg)
    ensures EffectOf(t, cats, Rule(true, c + "|" + arg)) == Some(AddArg(t[c].id, arg))
  {
    var x := c + "|" + arg;
    assert x[|c|] == '|' && x[..|c|] == c && x[|c| + 1..] == arg;
    NoBarAfter(x, |c| + 1);
    var b := LastBar(x).value;
    NoBarAfter(x, b + 1);
    assert b == |c|;
  }

  // An accepted rule is a command, a category or a first argument.
  lemma AcceptedForms(t: Table, cats: set<string>, r: Rule)
    requires TableOk(t) && EffectOf(t, cats, r).Some?
    ensures r.text in t || (exists g :: g in cats && r.text == "@" + g)
            || (r.allow && exists c, arg: string :: FirstArgNamed(t, c, arg) && r.text == c + "|" + arg)
  {
    var x := r.text;
    if x[0] == '@' {
      assert x == "@" + x[1..];
    } else if x !in t {
      var b := LastBar(x).value;
      assert x == x[..b] + "|" + x[b + 1..];
      assert FirstArgNamed(t, x[..b], x[b + 1..]);
    }
  }

  lemma SignOf(op: string, rest: string)
    ensures Lower(op) == "+" + rest ==> op != "" && op[0] == '+' && Lower(op)[1..] == rest
    ensures Lower(op) == "-" + rest ==> op != "" && op[0] == '-' && Lower(op)[1..] == rest
  {
    if op != "" {
      assert Lower(op)[0] == LowerChar(op[0]);
    }
  }

  // How an operation with a sign is read.
  lemma ParseSigned(op: string, allow: bool, rest: string)
    requires Lower(op) == (if allow then "+" else "-") + rest && rest != "@all"
    ensures Parse(op) == Single(Rule(allow, rest))
  {
    SignOf(op, rest);
    assert Lower(op)[0] == (if allow then '+' else '-');
  }

  lemma WholeObeys(t: Table, cats: set<string>, op: string, was: Perms)
    requires Lower(op) in {"+@all", "allcommands", "-@all", "nocommands"}
    ensures var all := Lower(op) in {"+@all", "allcommands"};
            && Carried(t, cats, op, was) == Some(Start(all))
            && Start(all).args == {} && (forall i: nat :: i in Start(all).bits <==> all && i < 1024)
  {
    assert Parse(op) == Whole(Lower(op) in {"+@all", "allcommands"});
  }

  lemma CommandIsNoOther(t: Table, cats: set<string>, c: string)
    requires Vocabulary(t, cats) && c in t
    ensures c != "@all" && c != "" && c[0] != '@'
  {
  }

  lemma CommandCarried(t: Table, cats: set<string>, op: string, was: Perms, c: string, allow: bool)
    requires Vocabulary(t, cats) && c in t && Lower(op) == (if allow then "+" else "-") + c
    ensures var r := Carried(t, cats, op, was); r.Some? && CommandObeyed(t, c, allow, was, r.value)
  {
    hide Parse, EffectOf, Apply, CommandObeyed, TableOk;
    CommandIsNoOther(t, cats, c);
    ParseSigned(op, allow, c);
    CommandObeys(t, cats, c, allow, was);
  }

  lemma CategoryCarried(t: Table, cats: set<string>, op: string, was: Perms, g: string, allow: bool)
    requires Vocabulary(t, cats) && g in cats && Lower(op) == (if allow then "+@" else "-@") + g
    ensures var r := Carried(t, cats, op, was); r.Some? && CategoryObeyed(t, g, allow, was, r.value)
  {
    hide Parse, EffectOf, Apply, CategoryObeyed, TableOk;
    assert Lower(op) == (if allow then "+" else "-") + ("@" + g);
    assert ("@" + g)[1..] == g && "@all"[1..] == "all";
    ParseSigned(op, allow, "@" + g);
    CategoryObeys(t, cats, g, allow, was);
  }

  lemma FirstArgCarried(t: Table, cats: set<string>, op: string, was: Perms, c: string, arg: string)
    requires Vocabulary(t, cats) && Lower(op) == "+" + c + "|" + arg && FirstArgNamed(t, c, arg)
    ensures Carried(t, cats, op, was) == Some(was.(args := was.args + {(t[c].id, arg)}))
  {
    hide Parse, EffectOf, Apply, TableOk;
    assert Lower(op) == "+" + (c + "|" + arg);
    NotAll(c, arg);
    ParseSigned(op, true, c + "|" + arg);
    FirstArgObeys(t, cats, c, arg, was);
    ApplyAddArg(was, t[c].id, arg);
  }

  // Nothing else is accepted.
  lemma AcceptedOps(t: Table, cats: set<string>, op: string, was: Perms)
    requires Vocabulary(t, cats) && Carried(t, cats, op, was).Some?
    ensures var l := Lower(op);
            || l in {"+@all", "allcommands", "-@all", "nocommands"}
            || (exists c :: c in t && (l == "+" + c || l == "-" + c))
            || (exists g :: g in cats && (l == "+@" + g || l == "-@" + g))
            || (exists c, arg: string :: FirstArgNamed(t, c, arg) && l == "+" + c + "|" + arg)
  {
    hide Parse, EffectOf, Apply, TableOk, FirstArgNamed;
    var l := Lower(op);
    if l !in {"+@all", "allcommands", "-@all", "nocommands"} {
      NotWhole(op);
      SingleText(op);
      var r := Parse(op).rule;
      AcceptedForms(t, cats, r);
      if r.text in t {
        assert l == "+" + r.text || l == "-" + r.text;
      } else if g :| g in cats && r.text == "@" + g {
        assert l == (if r.allow then "+" else "-") + "@" + g;
        assert "+" + "@" == "+@" && "-" + "@" == "-@";
        assert l == "+@" + g || l == "-@" + g;
      } else {
        var c, arg :| FirstArgNamed(t, c, arg) && r.text == c + "|" + arg;
        assert l == "+" + c + "|" + arg;
      }
    }
  }

  lemma SelectorObeys(t: Table, cats: set<string>, op: string, was: Perms)
    requires Vocabulary(t, cats)
    ensures var r := Carried(t, cats, op, was);
            Obeyed(t, cats, op, r.Some?, was, if r.Some? then r.value else was)
  {
    var r := Carried(t, cats, op, was);
    hide Carried, CommandObeyed, CategoryObeyed, FirstArgNamed, TableOk, Start, Vocabulary, Parse;
    forall c <- t | Lower(op) == "+" + c
      ensures r.Some? && CommandObeyed(t, c, true, was, r.value)
    {
      CommandCarried(t, cats, op, was, c, true);
    }
    forall c <- t | Lower(op) == "-" + c
      ensures r.Some? && CommandObeyed(t, c, false, was, r.value)
    {
      CommandCarried(t, cats, op, was, c, false);
    }
    forall g <- cats | Lower(op) == "+@" + g
      ensures r.Some? && CategoryObeyed(t, g, true, was, r.value)
    {
      CategoryCarried(t, cats, op, was, g, true);
    }
    forall g <- cats | Lower(op) == "-@" + g
      ensures r.Some? && CategoryObeyed(t, g, false, was, r.value)
    {
      CategoryCarried(t, cats, op, was, g, false);
    }
    forall c <- t, arg: string | Lower(op) == "+" + c + "|" + arg && FirstArgNamed(t, c, arg)
      ensures r == Some(was.(args := was.args + {(t[c].id, arg)}))
    {
      FirstArgCarried(t, cats, op, was, c, arg);
    }
    if r.Some? {
      AcceptedOps(t, cats, op, was);
    }
    WholeObeyed(t, cats, op, was);
  }

  lemma OthersCarryNothing(t: Table, cats: set<string>, op: string, was: Perms)
    ensures !Parse(op).Whole? && !Parse(op).Single? ==> Carried(t, cats, op, was).None?
  {
  }

  lemma ApplyAddArg(was: Perms, id: nat, arg: string)
    ensures Apply(AddArg(id, arg), was) == was.(args := was.args + {(id, arg)})
  {
  }

  lemma NotAll(c: string, arg: string)
    ensures c + "|" + arg != "@all"
  {
    assert (c + "|" + arg)[|c|] == '|';
  }

  lemma NotWhole(op: string)
    requires Lower(op) !in {"+@all", "allcommands", "-@all", "nocommands"}
    ensures !Parse(op).Whole?
  {
  }

  lemma SingleText(op: string)
    requires Parse(op).Single?
    ensures Lower(op) == (if Parse(op).rule.allow then "+" else "-") + Parse(op).rule.text
  {
    assert Lower(op)[0] == LowerChar(op[0]);
    assert Lower(op) == [Lower(op)[0]] + Lower(op)[1..];
  }

  lemma WholeObeyed(t: Table, cats: set<string>, op: string, was: Perms)
    ensures Lower(op) in {"+@all", "allcommands", "-@all", "nocommands"} ==>
              var r := Carried(t, cats, op, was);
              var all := Lower(op) in {"+@all", "allcommands"};
              r.Some? && r.value.args == {} && (forall i: nat :: i in r.value.bits <==> all && i < 1024) && (!all ==> r.value.bits == {})
  {
    if Lower(op) in {"+@all", "allcommands", "-@all", "nocommands"} {
      WholeObeys(t, cats, op, was);
    }
  }

  // ---------- replaying the text ----------

  // The operations the text splits into are its own rules.
  lemma TextSplits(t: Table, cats: set<string>, rules: seq<Rule>)
    requires Vocabulary(t, cats) && AllMean(t, cats, rules) && WellWritten(rules)
    ensures SplitArgs(Join(Tokens(rules))) == Some(Tokens(rules)) && |Tokens(rules)| == |rules|
    ensures forall i | 0 <= i < |rules| :: Parse(Tokens(rules)[i]) == Single(rules[i])
  {
    var ts := Tokens(rules);
    forall i | 0 <= i < |rules|
      ensures Parse(ts[i]) == Single(rules[i]) && Plain(ts[i]) && Starts(ts[i])
    {
      assert rules[i] in rules;
      ParseRendered(t, cats, rules[i]);
    }
    SplitJoinIff(ts);
  }

  // Replaying a prefix of a faithful log has logged that prefix, and it is faithful.
  lemma {:induction false} PrefixReplayed(t: Table, cats: set<string>, all: bool, rules: seq<Rule>, i: nat)
    requires AllMean(t, cats, rules) && Compact(rules) && i < |rules|
    ensures AllMean(t, cats, rules[..i]) && AllMean(t, cats, rules[..i + 1]) && EffectOf(t, cats, rules[i]).Some?
    ensures Logged(rules[..i], rules[i]) == rules[..i + 1]
    ensures Replay(t, cats, Start(all), rules[..i + 1])
      == Apply(EffectOf(t, cats, rules[i]).value, Replay(t, cats, Start(all), rules[..i]))
  {
    assert rules[..i + 1][..i] == rules[..i];
    assert rules[..i + 1] == rules[..i] + [rules[i]];
    AllSurvive(rules[..i], rules[i].text);
  }

  lemma WellWrittenAt(rules: seq<Rule>, i: nat)
    requires WellWritten(rules) && i < |rules|
    ensures Plain(rules[i].text)
  {
    assert rules[i] in rules;
  }

  // The operations are the printed rules of a compact log.
  ghost predicate OwnLog(t: Table, cats: set<string>, ops: seq<string>, rules: seq<Rule>) {
    && |ops| == |rules|
    && (forall i | 0 <= i < |ops| :: Parse(ops[i]) == Single(rules[i]))
    && AllMean(t, cats, rules) && Compact(rules) && WellWritten(rules)
  }

  // Each operation in turn, stopping at the first that is refused.
  method ApplyAll(s: Selector, ops: seq<string>, ghost all: bool, ghost rules: seq<Rule>) returns (ok: bool)
    requires s.Valid() && s.clean && s.View() == Start(all) && s.rules == []
    modifies s`bits, s`firstArgs, s`text, s`rules, s`clean
    ensures s.Valid()
    ensures OwnLog(s.table, s.cats, ops, rules) ==>
      ok && s.clean && s.rules == rules && s.View() == Replay(s.table, s.cats, Start(all), rules)
  {
    hide Compact, Logged, Faithful, WellWritten, EffectOf, Replay, Parse, Start, Vocabulary;
    ghost var mine := OwnLog(s.table, s.cats, ops, rules);
    assert rules[..0] == [];
    ReplayNone(s.table, s.cats, Start(all));
    var i := 0;
    while i < |ops|
      invariant 0 <= i <= |ops| && s.Valid()
      invariant mine ==> |ops| == |rules| && s.clean && s.rules == rules[..i] && AllMean(s.table, s.cats, rules[..i])
      invariant mine ==> s.View() == Replay(s.table, s.cats, Start(all), rules[..i])
    {
      if mine {
        PrefixReplayed(s.table, s.cats, all, rules, i);
        WellWrittenAt(rules, i);
      }
      var out := s.SetSelector(ops[i]);
      if out != Done {
        return false;
      }
      i := i + 1;
    }
    ok := true;
    assert mine ==> rules[..i] == rules;
  }

  lemma ReplayNone(t: Table, cats: set<string>, p: Perms)
    ensures AllMean(t, cats, []) && Replay(t, cats, p, []) == p
  {
  }

  /**
   * ACLDescribeSelectorCommandRules: replays the text on a scratch selector and aborts
   * if the bitmaps differ. While every accepted operation was free of blanks and quotes
   * it never aborts.
   */
  method Describe(s: Selector) returns (r: Option<string>)
    requires s.Valid()
    ensures s.clean ==> r == Some((if RESERVED in s.bits then "+@all" else "-@all") + (if s.text == "" then "" else " " + s.text))
  {
    hide Faithful, WellWritten, Tokens, Join, Vocabulary, SplitArgs, Start;
    var scratch := new Selector(s.table, s.cats);
    var all := RESERVED in s.bits;
    var start := if all then "+@all" else "-@all";
    ParseStart(all);
    var out := scratch.SetSelector(start);
    var ops := SplitArgs(s.text);
    LogParts(s);
    if ops.None? {
      return None;
    }
    var ok := ApplyAll(scratch, ops.value, all, s.rules);
    if !ok || scratch.bits != s.bits {
      return None;
    }
    r := Some(start + (if s.text == "" then "" else " " + s.text));
  }

  // What a valid clean selector says of its log, unpacked for a replay.
  lemma LogParts(s: Selector)
    requires s.Valid()
    ensures Vocabulary(s.table, s.cats)
    ensures s.clean ==>
      && AllMean(s.table, s.cats, s.rules)
      && s.View() == Replay(s.table, s.cats, Start(RESERVED in s.bits), s.rules)
      && SplitArgs(s.text) == Some(Tokens(s.rules)) && OwnLog(s.table, s.cats, Tokens(s.rules), s.rules)
  {
    if s.clean {
      TextSplits(s.table, s.cats, s.rules);
    }
  }

  lemma ParseStart(all: bool)
    ensures Parse(if all then "+@all" else "-@all") == Whole(all)
  {
    assert Lower("+@all") == "+@all" && Lower("-@all") == "-@all";
  }

  /**
   * ACLRecomputeCommandBitsFromCommandRulesAllUsers on one selector: the pass is a fixed
   * point, it changes neither the permissions nor the text.
   */
  method Recompute(s: Selector) returns (ok: bool)
    requires s.Valid()
    modifies s`bits, s`firstArgs, s`text, s`rules, s`clean
    ensures s.Valid()
    ensures old(s.clean) ==> ok && s.clean && s.View() == old(s.View()) && s.text == old(s.text) && s.rules == old(s.rules)
  {
    hide Faithful, WellWritten, Tokens, Join, Vocabulary, SplitArgs, Start;
    var ops := SplitArgs(s.text);
    LogParts(s);
    if ops.None? {
      return false;
    }
    ghost var rules := s.rules;
    var all := RESERVED in s.bits;
    ParseStart(all);
    var out := s.SetSelector(if all then "+@all" else "-@all");
    ok := ApplyAll(s, ops.value, all, rules);
  }

  // ---------- where the replay goes wrong ----------

  // The permissions a replay of `ops` ends with, or None where an assertion stops it.
  function ReplayOps(t: Table, cats: set<string>, p: Perms, ops: seq<string>): Option<Perms> {
    if ops == [] then Some(p)
    else
      var was := ReplayOps(t, cats, p, ops[..|ops| - 1]);
      var op := Parse(ops[|ops| - 1]);
      if was.None? || !op.Single? || EffectOf(t, cats, op.rule).None? then None
      else Some(Apply(EffectOf(t, cats, op.rule).value, was.value))
  }

  function ReplayText(t: Table, cats: set<string>, all: bool, text: string): Option<Perms> {
    if SplitArgs(text).None? then None else ReplayOps(t, cats, Start(all), SplitArgs(text).value)
  }

  // A first argument in force was given by some operation of the replay.
  lemma {:induction false} ArgCameFrom(t: Table, cats: set<string>, all: bool, ops: seq<string>, a: (nat, string))
    requires ReplayOps(t, cats, Start(all), ops).Some? && a in ReplayOps(t, cats, Start(all), ops).value.args
    ensures exists op :: op in ops && Parse(op).Single? && EffectOf(t, cats, Parse(op).rule) == Some(AddArg(a.0, a.1))
  {
    var n := |ops| - 1;
    var e := EffectOf(t, cats, Parse(ops[n]).rule);
    if e == Some(AddArg(a.0, a.1)) {
      assert ops[n] in ops;
    } else {
      ArgCameFrom(t, cats, all, ops[..n], a);
    }
  }

  lemma AddArgText(t: Table, cats: set<string>, r: Rule, c: string, arg: string)
    requires TableOk(t) && c in t && EffectOf(t, cats, r) == Some(AddArg(t[c].id, arg))
    ensures r.text == c + "|" + arg
  {
    var b := LastBar(r.text).value;
    assert r.text == r.text[..b] + [r.text[b]] + r.text[b + 1..];
  }

  /**
   * A rule that is accepted is logged as it came. Replaying the log of any selector then
   * gives its permissions back exactly when the new rule holds no blank and no quote: with
   * one, ACL LIST or a module load stops the server or changes the selector.
   */
  lemma LoggedTextReplaysIff(t: Table, cats: set<string>, x: State, r: Rule)
    requires Vocabulary(t, cats) && Faithful(t, cats, x) && WellWritten(x.rules)
    requires EffectOf(t, cats, r).Some? && Lower(r.text) == r.text
    ensures var y := Step(t, cats, x, Add(r));
            ReplayText(t, cats, RESERVED in x.perms.bits, Join(Tokens(y.rules))) == Some(y.perms) <==> Plain(r.text)
  {
    hide TableOk, ReplayText, EffectOf, Plain, Parse, Faithful, WellWritten, Logged;
    var y := Step(t, cats, x, Add(r));
    StepFaithful(t, cats, x, Add(r));
    ReservedUntouched(t, cats, r, x.perms);
    if Plain(r.text) {
      WellWrittenLogged(x.rules, r);
      PlainLogReplays(t, cats, y);
    } else if ReplayText(t, cats, RESERVED in x.perms.bits, Join(Tokens(y.rules))) == Some(y.perms) {
      ReplayedIsPlain(t, cats, x, r);
      assert false;
    }
  }

  // The text of a log without blanks and quotes replays to what the log does.
  lemma PlainLogReplays(t: Table, cats: set<string>, y: State)
    requires Vocabulary(t, cats) && Faithful(t, cats, y) && WellWritten(y.rules)
    ensures ReplayText(t, cats, RESERVED in y.perms.bits, Join(Tokens(y.rules))) == Some(y.perms)
  {
    TextSplits(t, cats, y.rules);
    OwnReplay(t, cats, RESERVED in y.perms.bits, Tokens(y.rules), y.rules);
  }

  lemma {:induction false} OwnReplay(t: Table, cats: set<string>, all: bool, ops: seq<string>, rules: seq<Rule>)
    requires |ops| == |rules| && AllMean(t, cats, rules) && forall i | 0 <= i < |ops| :: Parse(ops[i]) == Single(rules[i])
    ensures ReplayOps(t, cats, Start(all), ops) == Some(Replay(t, cats, Start(all), rules))
  {
    hide Parse, EffectOf;
    if ops != [] {
      OwnReplay(t, cats, all, ops[..|ops| - 1], rules[..|ops| - 1]);
    }
  }

  lemma ReplayedIsPlain(t: Table, cats: set<string>, x: State, r: Rule)
    requires Vocabulary(t, cats) && Faithful(t, cats, x) && WellWritten(x.rules)
    requires EffectOf(t, cats, r).Some? && Lower(r.text) == r.text
    requires var y := Step(t, cats, x, Add(r)); ReplayText(t, cats, RESERVED in x.perms.bits, Join(Tokens(y.rules))) == Some(y.perms)
    ensures Plain(r.text)
  {
    hide EffectOf, Plain, Parse, SplitArgs, Tokens, Join, Render, WellWritten, AllMean, Replay, Compact, TableOk;
    var e := EffectOf(t, cats, r).value;
    if e.SetBits? {
      NamedIsPlain(t, cats, r);
    } else {
      var kept := Surviving(x.rules, r.text);
      var all, ts := RESERVED in x.perms.bits, Tokens(kept);
      TokensMore(kept, r);
      var ops := SplitArgs(Join(ts + [Render(r)])).value;
      ArgCameFrom(t, cats, all, ops, (e.id, e.arg));
      var op :| op in ops && Parse(op).Single? && EffectOf(t, cats, Parse(op).rule) == Some(AddArg(e.id, e.arg));
      SameArgText(t, cats, r, Parse(op).rule);
      KeptPlain(t, cats, x.rules, r.text);
      SameLength(op, r);
      NoQuotedToken(ts, Render(r), op);
      SamePlain(op, r);
    }
  }

  lemma SameLength(op: string, r: Rule)
    requires Parse(op).Single? && Parse(op).rule.text == r.text
    ensures |op| == |Render(r)|
  {
  }

  lemma SamePlain(op: string, r: Rule)
    requires Parse(op).Single? && Parse(op).rule.text == r.text && Plain(op)
    ensures Plain(r.text)
  {
    LowerFacts(op);
    assert forall c <- r.text :: c in Lower(op);
  }

  lemma SameArgText(t: Table, cats: set<string>, r: Rule, q: Rule)
    requires TableOk(t) && EffectOf(t, cats, r).Some? && EffectOf(t, cats, r).value.AddArg? && EffectOf(t, cats, q) == EffectOf(t, cats, r)
    ensures q.text == r.text
  {
    var c := r.text[..LastBar(r.text).value];
    AddArgText(t, cats, r, c, EffectOf(t, cats, r).value.arg);
    AddArgText(t, cats, q, c, EffectOf(t, cats, r).value.arg);
  }

  // What survives of a well-written log is printed as plain tokens.
  lemma KeptPlain(t: Table, cats: set<string>, rules: seq<Rule>, x: string)
    requires Vocabulary(t, cats) && AllMean(t, cats, rules) && WellWritten(rules)
    ensures forall k <- Tokens(Surviving(rules, x)) :: Starts(k) && Plain(k)
  {
    var kept := Surviving(rules, x);
    SurvivingFacts(rules, x);
    TokensFacts(kept);
    forall i | 0 <= i < |Tokens(kept)|
      ensures Starts(Tokens(kept)[i]) && Plain(Tokens(kept)[i])
    {
      assert kept[i] in kept;
      ParseRendered(t, cats, kept[i]);
    }
  }

  lemma SplitName(t: Table, x: string, b: nat)
    requires TableOk(t) && b < |x| && x[b] == '|'
    ensures x in t ==> x[..b] in t && !t[x[..b]].isSub && t[x[..b]].subs != {} && x[b + 1..] != ""
  {
    if x in t {
      NameWithBar(t, x, b);
    }
  }

  lemma StartFaithful(t: Table, cats: set<string>, all: bool)
    ensures Faithful(t, cats, State(Start(all), [])) && WellWritten([]) && Join(Tokens([])) == ""
    ensures Args(map[]) == {}
  {
    assert InBitmap(RESERVED);
  }

  lemma SubsListed(t: Table, k: string)
    requires TableOk(t) && k in t
    ensures forall s <- t[k].subs :: s in t
  {
  }

  // ---------- identifiers ----------

  /**
   * ACLGetCommandID: a name keeps its identifier, in any case and across module reloads,
   * two names never share one, and the reserved one is never handed out.
   */
  class CommandIds {
    var ids: map<string, nat>
    var next: nat

    ghost predicate Valid()
      reads this
    {
      && next != RESERVED
      && (forall k <- ids :: ids[k] < next && ids[k] != RESERVED)
      && (forall k, l | k in ids && l in ids && ids[k] == ids[l] :: k == l)
    }

    constructor ()
      ensures Valid() && ids == map[]
    {
      ids, next := map[], 0;
    }

    method Assign(name: string) returns (id: nat)
      requires Valid()
      modifies this
      ensures Valid() && Lower(name) in ids && ids[Lower(name)] == id && id != RESERVED
      ensures forall k <- old(ids) :: k in ids && ids[k] == old(ids)[k]
      ensures ids.Keys == old(ids).Keys + {Lower(name)}
    {
      var k := Lower(name);
      if k in ids {
        return ids[k];
      }
      id := next;
      ids := ids[k := id];
      next := next + 1;
      if next == BITS - 1 {
        next := next + 1;
      }
    }
  }
}
