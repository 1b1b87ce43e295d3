/**
 * The text form of a selector's command rules: signed rules joined by single spaces,
 * edited in place when a rule is overridden, and split again when replayed.
 */
module AclText {
  import opened Prelude
  import opened AclRules

  function Render(r: Rule): string {
    (if r.allow then "+" else "-") + r.text
  }

  function Tokens(rules: seq<Rule>): seq<string> {
    seq(|rules|, i requires 0 <= i < |rules| => Render(rules[i]))
  }

  // Tokens separated by single spaces.
  function Join(ts: seq<string>): string {
    if ts == [] then ""
    else if |ts| == 1 then ts[0]
    else ts[0] + " " + Join(ts[1..])
  }

  // Tokens each followed by a space.
  function Lead(ts: seq<string>): string {
    if ts == [] then "" else Lead(ts[..|ts| - 1]) + ts[|ts| - 1] + " "
  }

  lemma {:induction false} LeadJoin(ts: seq<string>, rest: seq<string>)
    requires rest != []
    ensures Join(ts + rest) == Lead(ts) + Join(rest)
  {
    if ts == [] {
      assert ts + rest == rest;
    } else {
      var n := |ts| - 1;
      var more := [ts[n]] + rest;
      LeadJoin(ts[..n], more);
      assert ts[..n] + more == ts + rest && more[1..] == rest;
    }
  }

  lemma LeadMore(ts: seq<string>, t: string)
    ensures Lead(ts + [t]) == Lead(ts) + t + " "
    ensures Join(ts + [t]) == Lead(ts) + t
    ensures Lead(ts + [t]) == Join(ts + [t]) + " "
  {
    assert (ts + [t])[..|ts|] == ts;
    LeadJoin(ts, [t]);
  }

  // ---------- removing the overridden rules in place ----------

  // strchr(s + from, ' '), or the end of the string.
  function SpaceAt(s: string, from: nat): (r: nat)
    requires from <= |s|
    ensures from <= r <= |s| && (forall i | from <= i < r :: s[i] != ' ') && (r < |s| ==> s[r] == ' ')
    decreases |s| - from
  {
    if from == |s| || s[from] == ' ' then from
    else SpaceAt(s, from + 1)
  }

  predicate Spaceless(rules: seq<Rule>) {
    forall r <- rules :: ' ' !in r.text
  }

  // memcmp over the shorter length, then equal lengths or a bar after the shorter rule.
  predicate Matches(was: string, x: string)
  {
    var n := if |was| < |x| then |was| else |x|;
    was[..n] == x[..n] && (|was| == |x| || (|was| > |x| && was[|x|] == '|'))
  }

  lemma MatchIsOverride(was: string, x: string)
    ensures Matches(was, x) == Overrides(x, was)
  {
    assert |was| == |x| ==> was[..|x|] == was && x[..|x|] == x;
    assert |was| > |x| ==> x[..|x|] == x;
  }

  // Where the scan of the rule at `pos` stops, for a rule followed by `tail`.
  lemma ScanRule(s: string, pos: nat, t: string, tail: string)
    requires pos + |t| <= |s| && s[pos..] == t + tail && t != "" && ' ' !in t[1..]
    requires tail == "" || tail[0] == ' '
    ensures SpaceAt(s, pos + 1) == pos + |t| && s[pos + 1..pos + |t|] == t[1..]
    ensures s[pos + |t|..] == tail
  {
    var e := pos + |t|;
    assert s[e..] == s[pos..][|t|..] == tail;
    assert s[pos + 1..e] == s[pos..][1..|t|] == t[1..];
    assert forall i | pos + 1 <= i < e :: s[i] == s[pos + 1..e][i - pos - 1];
    assert tail != "" ==> s[e] == tail[0];
  }

  // The text while scanning: the rules kept so far, then the ones still to look at.
  ghost predicate Scanning(s: string, pos: nat, kept: seq<string>, rest: seq<string>) {
    if rest == [] then s == Join(kept) && pos == |s|
    else s == Lead(kept) + Join(rest) && pos == |Lead(kept)|
  }

  lemma ScanNext(s: string, pos: nat, kept: seq<string>, rest: seq<string>)
    requires rest != [] && Scanning(s, pos, kept, rest) && rest[0] != "" && ' ' !in rest[0][1..]
    ensures pos < |s| && pos + |rest[0]| <= |s|
    ensures SpaceAt(s, pos + 1) == pos + |rest[0]| && s[pos + 1..pos + |rest[0]|] == rest[0][1..]
    ensures pos + |rest[0]| == |s| <==> |rest| == 1
  {
    var tail := if |rest| == 1 then "" else " " + Join(rest[1..]);
    assert Join(rest) == rest[0] + tail;
    assert s[pos..] == rest[0] + tail;
    ScanRule(s, pos, rest[0], tail);
  }

  lemma ScanKeep(s: string, pos: nat, kept: seq<string>, rest: seq<string>)
    requires rest != [] && Scanning(s, pos, kept, rest)
    ensures Scanning(s, pos + |rest[0]| + (if |rest| == 1 then 0 else 1), kept + [rest[0]], rest[1..])
  {
    LeadMore(kept, rest[0]);
  }

  lemma ScanDrop(s: string, pos: nat, kept: seq<string>, rest: seq<string>)
    requires rest != [] && Scanning(s, pos, kept, rest) && pos + |rest[0]| <= |s|
    ensures |rest| > 1 ==> pos + |rest[0]| + 1 <= |s| && Scanning(s[..pos] + s[pos + |rest[0]| + 1..], pos, kept, rest[1..])
    ensures |rest| == 1 ==> (pos == 0 <==> kept == [])
    ensures |rest| == 1 && pos == 0 ==> Scanning("", 0, kept, [])
    ensures |rest| == 1 && pos > 0 ==> Scanning(s[..pos - 1], pos - 1, kept, [])
  {
    if |rest| > 1 {
      assert s[pos + |rest[0]| + 1..] == Join(rest[1..]);
    } else if kept != [] {
      var n := |kept| - 1;
      assert kept == kept[..n] + [kept[n]];
      LeadMore(kept[..n], kept[n]);
      assert s[..pos - 1] == Join(kept);
    }
  }

  lemma SurvivingStep(rules: seq<Rule>, k: nat, x: string)
    requires k < |rules|
    ensures Surviving(rules[..k + 1], x)
      == if Overrides(x, rules[k].text) then Surviving(rules[..k], x) else Surviving(rules[..k], x) + [rules[k]]
  {
    assert rules[..k + 1][..k] == rules[..k];
  }

  lemma TokensMore(rules: seq<Rule>, r: Rule)
    ensures Tokens(rules + [r]) == Tokens(rules) + [Render(r)]
  {
  }

  lemma TokensRest(rules: seq<Rule>, k: nat)
    requires k < |rules|
    ensures Tokens(rules)[k] == Render(rules[k]) && Tokens(rules)[k..][0] == Render(rules[k])
    ensures Tokens(rules)[k..][1..] == Tokens(rules)[k + 1..]
    ensures Render(rules[k])[1..] == rules[k].text
  {
  }

  /**
   * The in-place edit: one pass over the text that moves the tail over each overridden
   * rule, equal to filtering the list of rules. No trailing or double space is left.
   */
  method RemoveCommandRule(text: string, x: string, ghost rules: seq<Rule>) returns (s: string)
    ensures Spaceless(rules) && text == Join(Tokens(rules)) ==> s == Join(Tokens(Surviving(rules, x)))
  {
    hide Scanning, Tokens, Surviving, Join, Matches, Overrides;
    s := text;
    var pos: nat := 0;
    ghost var k := 0;
    ghost var inForm := Spaceless(rules) && text == Join(Tokens(rules));
    assert rules[..0] == [] && Tokens(rules)[0..] == Tokens(rules);
    ScanStart(rules, x);
    TokensFacts(rules);
    while pos < |s|
      invariant inForm ==> 0 <= k <= |rules| == |Tokens(rules)|
      invariant inForm ==> Scanning(s, pos, Tokens(Surviving(rules[..k], x)), Tokens(rules)[k..])
      decreases |s| - pos
    {
      if inForm {
        ghost var kept, rest := Tokens(Surviving(rules[..k], x)), Tokens(rules)[k..];
        ScanEnds(s, pos, kept, rest);
        TokensRest(rules, k);
        SurvivingStep(rules, k, x);
        TokensMore(Surviving(rules[..k], x), rules[k]);
        ScanNext(s, pos, kept, rest);
        ScanDrop(s, pos, kept, rest);
        ScanKeep(s, pos, kept, rest);
      }
      var copyPos, ruleStart := pos, pos + 1;
      var ruleEnd := SpaceAt(s, ruleStart);
      if ruleEnd == |s| && copyPos != 0 {
        copyPos := copyPos - 1;
      }
      var copyEnd := if ruleEnd < |s| then ruleEnd + 1 else ruleEnd;
      MatchIsOverride(s[ruleStart..ruleEnd], x);
      if Matches(s[ruleStart..ruleEnd], x) {
        assert copyEnd == |s| ==> s[..copyPos] + s[copyEnd..] == s[..copyPos];
        s := s[..copyPos] + s[copyEnd..];
        pos := copyPos;
      } else {
        pos := copyEnd;
      }
      k := k + 1;
    }
    if inForm {
      ScanDone(s, pos, Tokens(Surviving(rules[..k], x)), Tokens(rules)[k..]);
      assert rules[..k] == rules;
    }
  }

  lemma ScanStart(rules: seq<Rule>, x: string)
    ensures Scanning(Join(Tokens(rules)), 0, Tokens(Surviving([], x)), Tokens(rules))
  {
  }

  lemma TokensFacts(rules: seq<Rule>)
    ensures |Tokens(rules)| == |rules| && forall i | 0 <= i < |rules| :: Tokens(rules)[i] != ""
  {
  }

  lemma ScanEnds(s: string, pos: nat, kept: seq<string>, rest: seq<string>)
    requires Scanning(s, pos, kept, rest) && pos < |s|
    ensures rest != []
  {
  }

  lemma ScanDone(s: string, pos: nat, kept: seq<string>, rest: seq<string>)
    requires Scanning(s, pos, kept, rest) && pos >= |s| && forall i | 0 <= i < |rest| :: rest[i] != ""
    ensures rest == [] && s == Join(kept)
  {
  }

  // ---------- splitting the text again ----------

  predicate IsSpace(c: char) {
    c == ' ' || '\t' <= c <= '\r'
  }

  // What ends or quotes a token.
  predicate Special(c: char) {
    c == ' ' || c == '\n' || c == '\r' || c == '\t' || c == '"' || c == '\''
  }

  predicate Plain(t: string) {
    forall c <- t :: !Special(c)
  }

  predicate IsHex(c: char) {
    '0' <= c <= '9' || 'a' <= c <= 'f' || 'A' <= c <= 'F'
  }

  function HexValue(c: char): int {
    if '0' <= c <= '9' then c as int - '0' as int
    else if 'a' <= c <= 'f' then c as int - 'a' as int + 10
    else if 'A' <= c <= 'F' then c as int - 'A' as int + 10
    else 0
  }

  function Unescape(c: char): char {
    match c
    case 'n' => '\n'
    case 'r' => '\r'
    case 't' => '\t'
    case 'b' => 8 as char
    case 'a' => 7 as char
    case _ => c
  }

  datatype Mode = Between | Bare | InDouble | InSingle

  // One step inside double quotes: how much is read and what it stands for.
  function QuotedChar(s: string): (r: (nat, char))
    requires s != ""
    ensures 1 <= r.0 <= |s|
  {
    if |s| >= 4 && s[0] == '\\' && s[1] == 'x' && IsHex(s[2]) && IsHex(s[3]) then
      (4, (HexValue(s[2]) * 16 + HexValue(s[3])) as char)
    else if |s| >= 2 && s[0] == '\\' then (2, Unescape(s[1]))
    else (1, s[0])
  }

  // sdssplitargs: `acc` holds the finished tokens, `cur` the one being read.
  function Split(s: string, m: Mode, cur: string, acc: seq<string>): Option<seq<string>>
    decreases |s|, if m.Between? then 1 else 0
  {
    match m
    case Between =>
      if s == "" then Some(acc)
      else if IsSpace(s[0]) then Split(s[1..], Between, "", acc)
      else Split(s, Bare, "", acc)
    case Bare =>
      if s == "" then Some(acc + [cur])
      else if s[0] == '"' then Split(s[1..], InDouble, cur, acc)
      else if s[0] == '\'' then Split(s[1..], InSingle, cur, acc)
      else if Special(s[0]) then Split(s[1..], Between, "", acc + [cur])
      else Split(s[1..], Bare, cur + [s[0]], acc)
    case InDouble =>
      if s == "" then None
      else if s[0] == '"' then
        if |s| > 1 && !IsSpace(s[1]) then None else Split(s[1..], Between, "", acc + [cur])
      else Split(s[QuotedChar(s).0..], InDouble, cur + [QuotedChar(s).1], acc)
    case InSingle =>
      if s == "" then None
      else if |s| > 1 && s[0] == '\\' && s[1] == '\'' then Split(s[2..], InSingle, cur + "'", acc)
      else if s[0] == '\'' then
        if |s| > 1 && !IsSpace(s[1]) then None else Split(s[1..], Between, "", acc + [cur])
      else Split(s[1..], InSingle, cur + [s[0]], acc)
  }

  function SplitArgs(s: string): Option<seq<string>> {
    Split(s, Between, "", [])
  }

  // The characters of the tokens, one more for each.
  function Cost(ts: seq<string>): nat {
    if ts == [] then 0 else Cost(ts[..|ts| - 1]) + |ts[|ts| - 1]| + 1
  }

  lemma CostMore(ts: seq<string>, t: string)
    ensures Cost(ts + [t]) == Cost(ts) + |t| + 1
  {
    assert (ts + [t])[..|ts|] == ts;
  }

  predicate Quote(c: char) {
    c == '"' || c == '\''
  }

  // Splitting never makes more text than it read, and less when it meets a quote.
  lemma {:induction false} SplitCost(s: string, m: Mode, cur: string, acc: seq<string>)
    requires Split(s, m, cur, acc).Some?
    ensures Cost(Split(s, m, cur, acc).value) <= Cost(acc) + |s| + 1 + (if m.Between? then 0 else |cur|)
    ensures (m.Bare? || m.Between?) && (exists c :: c in s && Quote(c)) ==>
      Cost(Split(s, m, cur, acc).value) < Cost(acc) + |s| + 1 + (if m.Between? then 0 else |cur|)
    decreases |s|, if m.Between? then 1 else 0
  {
    CostMore(acc, cur);
    if s != "" {
      assert s == [s[0]] + s[1..];
      match m
      case Between =>
        if IsSpace(s[0]) {
          SplitCost(s[1..], Between, "", acc);
        } else {
          SplitCost(s, Bare, "", acc);
        }
      case Bare =>
        if s[0] == '"' {
          SplitCost(s[1..], InDouble, cur, acc);
        } else if s[0] == '\'' {
          SplitCost(s[1..], InSingle, cur, acc);
        } else if Special(s[0]) {
          SplitCost(s[1..], Between, "", acc + [cur]);
        } else {
          SplitCost(s[1..], Bare, cur + [s[0]], acc);
        }
      case InDouble =>
        if s[0] == '"' {
          SplitCost(s[1..], Between, "", acc + [cur]);
        } else {
          SplitCost(s[QuotedChar(s).0..], InDouble, cur + [QuotedChar(s).1], acc);
        }
      case InSingle =>
        if |s| > 1 && s[0] == '\\' && s[1] == '\'' {
          SplitCost(s[2..], InSingle, cur + "'", acc);
        } else if s[0] == '\'' {
          SplitCost(s[1..], Between, "", acc + [cur]);
        } else {
          SplitCost(s[1..], InSingle, cur + [s[0]], acc);
        }
    }
  }

  // Without quotes in the text, every token comes out plain.
  lemma {:induction false} SplitPlain(s: string, m: Mode, cur: string, acc: seq<string>)
    requires (forall c <- s :: !Quote(c)) && (m.Between? || m.Bare?) && Plain(cur) && forall t <- acc :: Plain(t)
    ensures Split(s, m, cur, acc).Some? && forall t <- Split(s, m, cur, acc).value :: Plain(t)
    decreases |s|, if m.Between? then 1 else 0
  {
    if s != "" {
      assert s[0] in s;
      if m.Between? && !IsSpace(s[0]) {
        SplitPlain(s, Bare, "", acc);
      } else if m.Between? {
        SplitPlain(s[1..], Between, "", acc);
      } else if Special(s[0]) {
        SplitPlain(s[1..], Between, "", acc + [cur]);
      } else {
        SplitPlain(s[1..], Bare, cur + [s[0]], acc);
      }
    }
  }

  // A plain token is read whole.
  lemma {:induction false} SplitToken(t: string, rest: string, cur: string, acc: seq<string>)
    requires Plain(t) && (rest == "" || rest[0] == ' ')
    ensures Split(t + rest, Bare, cur, acc) == Split(rest, Bare, cur + t, acc)
  {
    if t == "" {
      assert t + rest == rest && cur + t == cur;
    } else {
      assert t[0] in t;
      assert (t + rest)[1..] == t[1..] + rest && cur + t == cur + [t[0]] + t[1..];
      SplitToken(t[1..], rest, cur + [t[0]], acc);
    }
  }

  // A token that starts with a sign, or at least not with a blank.
  predicate Starts(t: string) {
    t != "" && !IsSpace(t[0])
  }

  lemma SplitOne(t: string, rest: string, acc: seq<string>)
    requires Starts(t) && Plain(t) && (rest == "" || rest[0] == ' ')
    ensures Split(t + rest, Between, "", acc)
      == if rest == "" then Some(acc + [t]) else Split(rest[1..], Between, "", acc + [t])
  {
    assert (t + rest)[0] == t[0];
    SplitToken(t, rest, "", acc);
    assert "" + t == t;
  }

  lemma {:induction false} SplitJoined(ts: seq<string>, acc: seq<string>)
    requires forall t <- ts :: Starts(t) && Plain(t)
    ensures Split(Join(ts), Between, "", acc) == Some(acc + ts)
  {
    hide Split;
    if ts == [] {
      SplitNothing(acc);
      assert acc + ts == acc;
    } else if |ts| == 1 {
      SplitOne(ts[0], "", acc);
      assert ts[0] + "" == ts[0] && acc + ts == acc + [ts[0]];
    } else {
      var rest := " " + Join(ts[1..]);
      SplitOne(ts[0], rest, acc);
      assert Join(ts) == ts[0] + rest && rest[1..] == Join(ts[1..]);
      SplitJoined(ts[1..], acc + [ts[0]]);
      assert acc + [ts[0]] + ts[1..] == acc + ts;
    }
  }

  // Plain tokens in front are read off, whatever follows them.
  lemma {:induction false} SplitJoinedThen(ts: seq<string>, x: string, acc: seq<string>)
    requires forall t <- ts :: Starts(t) && Plain(t)
    ensures Split(Join(ts + [x]), Between, "", acc) == Split(x, Between, "", acc + ts)
  {
    hide Split;
    if ts == [] {
      assert ts + [x] == [x] && acc + ts == acc;
    } else {
      var all := ts + [x];
      var rest := " " + Join(all[1..]);
      SplitOne(ts[0], rest, acc);
      assert all[1..] == ts[1..] + [x];
      assert Join(all) == ts[0] + rest && rest[1..] == Join(all[1..]);
      SplitJoinedThen(ts[1..], x, acc + [ts[0]]);
      assert acc + [ts[0]] + ts[1..] == acc + ts;
    }
  }

  // Finished tokens stay as they are.
  lemma {:induction false} SplitKeeps(s: string, m: Mode, cur: string, acc: seq<string>)
    requires Split(s, m, cur, acc).Some?
    ensures acc <= Split(s, m, cur, acc).value
    decreases |s|, if m.Between? then 1 else 0
  {
    if s != "" {
      match m
      case Between =>
        if IsSpace(s[0]) {
          SplitKeeps(s[1..], Between, "", acc);
        } else {
          SplitKeeps(s, Bare, "", acc);
        }
      case Bare =>
        if s[0] == '"' {
          SplitKeeps(s[1..], InDouble, cur, acc);
        } else if s[0] == '\'' {
          SplitKeeps(s[1..], InSingle, cur, acc);
        } else if Special(s[0]) {
          SplitKeeps(s[1..], Between, "", acc + [cur]);
        } else {
          SplitKeeps(s[1..], Bare, cur + [s[0]], acc);
        }
      case InDouble =>
        if s[0] == '"' {
          SplitKeeps(s[1..], Between, "", acc + [cur]);
        } else {
          SplitKeeps(s[QuotedChar(s).0..], InDouble, cur + [QuotedChar(s).1], acc);
        }
      case InSingle =>
        if |s| > 1 && s[0] == '\\' && s[1] == '\'' {
          SplitKeeps(s[2..], InSingle, cur + "'", acc);
        } else if s[0] == '\'' {
          SplitKeeps(s[1..], Between, "", acc + [cur]);
        } else {
          SplitKeeps(s[1..], InSingle, cur + [s[0]], acc);
        }
    }
  }

  // A token behind the first ones costs its length on top of theirs.
  lemma {:induction false} CostBehind(ts: seq<string>, k: nat, i: nat)
    requires k <= i < |ts|
    ensures Cost(ts) >= Cost(ts[..k]) + |ts[i]| + 1
  {
    var n := |ts| - 1;
    if i < n {
      CostBehind(ts[..n], k, i);
      assert ts[..n][..k] == ts[..k];
    } else {
      CostPrefix(ts[..n], k);
      assert ts[..n][..k] == ts[..k];
    }
  }

  lemma {:induction false} CostPrefix(ts: seq<string>, k: nat)
    requires k <= |ts|
    ensures Cost(ts[..k]) <= Cost(ts)
  {
    if k < |ts| {
      CostPrefix(ts[..|ts| - 1], k);
      assert ts[..|ts| - 1][..k] == ts[..k];
    } else {
      assert ts[..k] == ts;
    }
  }

  // Among plain tokens and the split of one more text, a token as long as that text and not
  // plain cannot come out.
  lemma NoQuotedToken(ts: seq<string>, x: string, op: string)
    requires (forall t <- ts :: Starts(t) && Plain(t)) && SplitArgs(Join(ts + [x])).Some?
    requires op in SplitArgs(Join(ts + [x])).value && |op| == |x|
    ensures Plain(op)
  {
    hide Split, Plain;
    SplitJoinedThen(ts, x, []);
    assert [] + ts == ts;
    var ops := Split(x, Between, "", ts).value;
    if op !in ts {
      SplitKeeps(x, Between, "", ts);
      assert ops[..|ts|] == ts && ops == ts + ops[|ts|..];
      var i :| |ts| <= i < |ops| && ops[i] == op;
      CostBehind(ops, |ts|, i);
      SplitCost(x, Between, "", ts);
      PlainNothing();
      SplitPlain(x, Between, "", ts);
    }
  }

  lemma PlainNothing()
    ensures Plain("")
  {
  }

  lemma SplitNothing(acc: seq<string>)
    ensures Split("", Between, "", acc) == Some(acc)
  {
  }

  lemma {:induction false} JoinCost(ts: seq<string>)
    requires ts != []
    ensures |Join(ts)| + 1 == Cost(ts)
    ensures forall t <- ts, c <- t :: c in Join(ts)
  {
    var n := |ts| - 1;
    var init := ts[..n];
    assert ts == init + [ts[n]];
    LeadMore(init, ts[n]);
    if n > 0 {
      JoinCost(init);
      assert init == init[..n - 1] + [init[n - 1]];
      LeadMore(init[..n - 1], init[n - 1]);
    }
  }

  lemma {:induction false} JoinChars(ts: seq<string>)
    ensures forall c <- Join(ts) :: c == ' ' || exists t :: t in ts && c in t
  {
    if |ts| > 1 {
      JoinChars(ts[1..]);
    }
  }

  /**
   * Splitting a joined list gives the list back exactly when no token holds a blank or
   * a quote.
   */
  lemma SplitJoinIff(ts: seq<string>)
    requires forall t <- ts :: Starts(t)
    ensures SplitArgs(Join(ts)) == Some(ts) <==> forall t <- ts :: Plain(t)
  {
    if forall t <- ts :: Plain(t) {
      SplitJoined(ts, []);
      assert [] + ts == ts;
    } else if exists c :: c in Join(ts) && Quote(c) {
      JoinCost(ts);
      if SplitArgs(Join(ts)).Some? {
        SplitCost(Join(ts), Between, "", []);
      }
    } else {
      SplitPlain(Join(ts), Between, "", []);
    }
  }
}
