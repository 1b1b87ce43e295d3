/**
 * The compute part of BITOP: words while every key has them, then bytes to the end of
 * the longest key.
 */
module BitOpCommand {
  import opened Bitfield
  import opened BitOp

  // What the loop over the keys leaves in a result word: for DIFF, DIFF1 and ANDOR the
  // disjunction of the later keys, combined with the first key afterwards.
  function Left(op: Op, ws: seq<Word>): Word
    requires ws != []
  {
    if Combines(op) then WordFold(op, ws).d else WordEnd(op, WordFold(op, ws))
  }

  lemma {:induction false} FirstStays(op: Op, ws: seq<Word>)
    requires ws != [] && Combines(op)
    ensures WordFold(op, ws).o == ws[0]
  {
    if |ws| > 1 {
      FirstStays(op, ws[..|ws| - 1]);
    }
  }

  // The second pass.
  function Combined(op: Op, first: Word, acc: Word): Word {
    WordEnd(op, Lane(first, acc, 0))
  }

  lemma CombinedIsEnd(op: Op, ws: seq<Word>)
    requires ws != [] && Combines(op)
    ensures Combined(op, ws[0], Left(op, ws)) == WordEnd(op, WordFold(op, ws))
  {
    FirstStays(op, ws);
  }

  predicate Long(keys: seq<seq<Byte>>, n: nat) {
    forall i | 0 <= i < |keys| :: n <= |keys[i]|
  }

  // The result word at `off`, before the second pass and after it.
  function LeftAt(op: Op, keys: seq<seq<Byte>>, off: nat): Word
    requires keys != [] && Long(keys, off + 8)
  {
    Left(op, Loaded(keys, off))
  }

  function EndAt(op: Op, keys: seq<seq<Byte>>, off: nat): Word
    requires keys != [] && Long(keys, off + 8)
  {
    WordEnd(op, WordFold(op, Loaded(keys, off)))
  }

  method FastWord(op: Op, keys: seq<seq<Byte>>, off: nat) returns (w: Word)
    requires keys != [] && Long(keys, off + 8)
    ensures w == LeftAt(op, keys, off)
  {
    hide WordStep, WordEnd, Load;
    ghost var ws := Loaded(keys, off);
    var l := Lane(Load(keys[0], off), 0, 0);
    assert ws[..1] == [Load(keys[0], off)];
    var i := 1;
    while i < |keys|
      invariant 1 <= i <= |keys| && l == WordFold(op, ws[..i])
    {
      assert ws[..i + 1][..i] == ws[..i];
      l := WordStep(op, l, Load(keys[i], off));
      i := i + 1;
    }
    assert ws[..i] == ws;
    w := if Combines(op) then l.d else WordEnd(op, l);
  }

  method Store(res: array<Byte>, off: nat, w: Word)
    requires off + 8 <= res.Length
    modifies res
    ensures forall x | 0 <= x < res.Length :: res[x] == if off <= x < off + 8 then WordByte(w, x - off) else old(res[x])
  {
    hide WordByte;
    var i := 0;
    while i < 8
      invariant 0 <= i <= 8
      invariant forall x | 0 <= x < res.Length :: res[x] == if off <= x < off + i then WordByte(w, x - off) else old(res[x])
    {
      res[off + i] := WordByte(w, i);
      i := i + 1;
    }
  }

  // The first pass wrote the word of the loop over the keys at every multiple of eight.
  ghost predicate FirstPass(op: Op, keys: seq<seq<Byte>>, s: seq<Byte>, done: nat) {
    && done % 8 == 0 && done <= |s| && keys != [] && Long(keys, done)
    && (forall off: nat, i: nat | off % 8 == 0 && off < done && i < 8 :: s[off + i] == WordByte(LeftAt(op, keys, off), i))
  }

  // The second pass has combined the words below `mid`.
  ghost predicate SecondPass(op: Op, keys: seq<seq<Byte>>, s: seq<Byte>, done: nat, mid: nat) {
    && done % 8 == 0 && mid % 8 == 0 && mid <= done <= |s| && keys != [] && Long(keys, done)
    && (forall off: nat, i: nat | off % 8 == 0 && off < mid && i < 8 :: s[off + i] == WordByte(EndAt(op, keys, off), i))
    && (forall off: nat, i: nat | off % 8 == 0 && mid <= off < done && i < 8 :: s[off + i] == WordByte(LeftAt(op, keys, off), i))
  }

  lemma FirstPassMore(op: Op, keys: seq<seq<Byte>>, s: seq<Byte>, t: seq<Byte>, done: nat)
    requires FirstPass(op, keys, s, done) && |t| == |s| && done + 8 <= |s| && Long(keys, done + 8)
    requires forall x | 0 <= x < |s| :: t[x] == if done <= x < done + 8 then WordByte(LeftAt(op, keys, done), x - done) else s[x]
    ensures FirstPass(op, keys, t, done + 8)
  {
    hide WordByte, LeftAt;
    forall off: nat, i: nat | off % 8 == 0 && off < done + 8 && i < 8
      ensures t[off + i] == WordByte(LeftAt(op, keys, off), i)
    {
      if off < done {
        assert s[off + i] == WordByte(LeftAt(op, keys, off), i);
      }
    }
  }

  lemma SecondPassMore(op: Op, keys: seq<seq<Byte>>, s: seq<Byte>, t: seq<Byte>, done: nat, mid: nat)
    requires SecondPass(op, keys, s, done, mid) && |t| == |s| && mid + 8 <= done && Long(keys, mid + 8)
    requires forall x | 0 <= x < |s| :: t[x] == if mid <= x < mid + 8 then WordByte(EndAt(op, keys, mid), x - mid) else s[x]
    ensures SecondPass(op, keys, t, done, mid + 8)
  {
    hide WordByte, LeftAt, EndAt;
    forall off: nat, i: nat | off % 8 == 0 && off < mid + 8 && i < 8
      ensures t[off + i] == WordByte(EndAt(op, keys, off), i)
    {
      if off < mid {
        assert s[off + i] == WordByte(EndAt(op, keys, off), i);
      }
    }
    forall off: nat, i: nat | off % 8 == 0 && mid + 8 <= off < done && i < 8
      ensures t[off + i] == WordByte(LeftAt(op, keys, off), i)
    {
      assert s[off + i] == WordByte(LeftAt(op, keys, off), i);
    }
  }

  // The word in the result, read back for the second pass.
  lemma ReadBack(op: Op, keys: seq<seq<Byte>>, s: seq<Byte>, done: nat, mid: nat)
    requires SecondPass(op, keys, s, done, mid) && mid < done && Combines(op)
    ensures Combined(op, Load(keys[0], mid), Load(s, mid)) == EndAt(op, keys, mid)
  {
    hide WordByte, WordEnd, WordFold, Load;
    var w := LeftAt(op, keys, mid);
    forall i | 0 <= i < 8
      ensures WordByte(Load(s, mid), i) == WordByte(w, i)
    {
      LoadByte(s, mid, i);
      assert s[mid + i] == WordByte(LeftAt(op, keys, mid), i);
    }
    SameBytes(Load(s, mid), w);
    CombinedIsEnd(op, Loaded(keys, mid));
  }

  // A word is its eight bytes.
  lemma SameBytes(a: Word, b: Word)
    requires forall i | 0 <= i < 8 :: WordByte(a, i) == WordByte(b, i)
    ensures a == b
  {
    assert WordByte(a, 0) == WordByte(b, 0) && WordByte(a, 1) == WordByte(b, 1);
    assert WordByte(a, 2) == WordByte(b, 2) && WordByte(a, 3) == WordByte(b, 3);
    assert WordByte(a, 4) == WordByte(b, 4) && WordByte(a, 5) == WordByte(b, 5);
    assert WordByte(a, 6) == WordByte(b, 6) && WordByte(a, 7) == WordByte(b, 7);
  }

  lemma SecondStarts(op: Op, keys: seq<seq<Byte>>, s: seq<Byte>, done: nat)
    requires FirstPass(op, keys, s, done)
    ensures SecondPass(op, keys, s, done, 0)
  {
    hide WordByte, LeftAt, EndAt;
  }

  // After the last pass every processed byte is right.
  lemma PassesRight(op: Op, keys: seq<seq<Byte>>, s: seq<Byte>, done: nat)
    requires if Combines(op) then SecondPass(op, keys, s, done, done) else FirstPass(op, keys, s, done)
    ensures forall x | 0 <= x < done :: Right(op, Column(keys, x), s[x])
  {
    hide WordByte, Right, WordEnd, WordFold;
    forall x | 0 <= x < done
      ensures Right(op, Column(keys, x), s[x])
    {
      var off, i := x - x % 8, x % 8;
      assert off % 8 == 0 && off + 8 <= done;
      assert Long(keys, off + 8);
      if !Combines(op) {
        assert s[off + i] == WordByte(LeftAt(op, keys, off), i);
      }
      assert s[off + i] == WordByte(EndAt(op, keys, off), i);
      WordRight(op, keys, off, i);
    }
  }

  /**
   * The path over four words at a time, for the part that every key has; for DIFF, DIFF1
   * and ANDOR a second pass combines the first key.
   */
  method FastPath(op: Op, keys: seq<seq<Byte>>, minlen: nat, res: array<Byte>) returns (done: nat)
    requires keys != [] && Long(keys, minlen) && minlen <= res.Length
    modifies res
    ensures done <= minlen && forall x | 0 <= x < done :: Right(op, Column(keys, x), res[x])
  {
    hide Right, WordByte, LeftAt, EndAt, FirstPass, SecondPass, Combined, WordEnd, Load;
    done := 0;
    PassStarts(op, keys, res[..]);
    while done + 32 <= minlen
      invariant 0 <= done <= minlen && done % 8 == 0 && FirstPass(op, keys, res[..], done)
    {
      var w := 0;
      while w < 4
        invariant 0 <= w <= 4 && done + 32 <= minlen && done % 8 == 0
        invariant FirstPass(op, keys, res[..], done + 8 * w)
      {
        ghost var s := res[..];
        var word := FastWord(op, keys, done + 8 * w);
        Store(res, done + 8 * w, word);
        FirstPassMore(op, keys, s, res[..], done + 8 * w);
        w := w + 1;
      }
      done := done + 32;
    }
    if Combines(op) {
      SecondStarts(op, keys, res[..], done);
      var mid := 0;
      while mid < done
        invariant 0 <= mid <= done <= minlen && done % 8 == 0 && mid % 8 == 0 && SecondPass(op, keys, res[..], done, mid)
      {
        ghost var s := res[..];
        ReadBack(op, keys, s, done, mid);
        var word := Combined(op, Load(keys[0], mid), Load(res[..], mid));
        Store(res, mid, word);
        assert mid + 8 <= done && Long(keys, mid + 8);
        SecondPassMore(op, keys, s, res[..], done, mid);
        mid := mid + 8;
      }
    }
    PassesRight(op, keys, res[..], done);
  }

  lemma PassStarts(op: Op, keys: seq<seq<Byte>>, s: seq<Byte>)
    requires keys != []
    ensures FirstPass(op, keys, s, 0)
  {
  }

  // ---------- what a bit of the result means ----------

  // A bit of the result, by the bits of the keys at its position; past its end a key has zeros.
  ghost predicate Means(op: Op, keys: seq<seq<Byte>>, x: nat, bit: bool)
    requires keys != []
  {
    var later := exists i :: 1 <= i < |keys| && BitAt(keys[i], x);
    match op
    case And => bit <==> forall i | 0 <= i < |keys| :: BitAt(keys[i], x)
    case Or => bit <==> exists i :: 0 <= i < |keys| && BitAt(keys[i], x)
    case Xor => bit <==> |set i | 0 <= i < |keys| && BitAt(keys[i], x)| % 2 == 1
    case Not => bit <==> !BitAt(keys[0], x)
    case Diff => bit <==> BitAt(keys[0], x) && !later
    case Diff1 => bit <==> !BitAt(keys[0], x) && later
    case AndOr => bit <==> BitAt(keys[0], x) && later
    case One => bit <==> |set i | 0 <= i < |keys| && BitAt(keys[i], x)| == 1
  }

  lemma {:induction false} OnesCard(bits: seq<bool>)
    ensures Ones(bits) == |set i | 0 <= i < |bits| && bits[i]|
  {
    var all := set i | 0 <= i < |bits| && bits[i];
    if bits == [] {
      assert all == {};
    } else {
      var n := |bits| - 1;
      OnesCard(bits[..n]);
      var less := set i | 0 <= i < n && bits[..n][i];
      assert forall i | 0 <= i < n :: bits[..n][i] == bits[i];
      assert all == if bits[n] then less + {n} else less;
    }
  }

  lemma {:induction false} OnesAll(bits: seq<bool>)
    ensures Ones(bits) <= |bits|
    ensures Ones(bits) == |bits| <==> forall i | 0 <= i < |bits| :: bits[i]
  {
    if bits != [] {
      var n := |bits| - 1;
      OnesAll(bits[..n]);
      assert forall i | 0 <= i < n :: bits[..n][i] == bits[i];
    }
  }

  lemma {:induction false} OnesSome(bits: seq<bool>)
    ensures Ones(bits) > 0 <==> exists i :: 0 <= i < |bits| && bits[i]
  {
    if bits != [] {
      var n := |bits| - 1;
      OnesSome(bits[..n]);
      assert forall i | 0 <= i < n :: bits[..n][i] == bits[i];
    }
  }

  lemma ColumnBits(keys: seq<seq<Byte>>, x: nat)
    ensures
      var bits := BitsAt(Column(keys, x / 8), 7 - x % 8);
      |bits| == |keys| && forall i | 0 <= i < |keys| :: bits[i] == BitAt(keys[i], x)
  {
    hide BitOf;
    ZeroByte(7 - x % 8);
  }

  lemma DefMeans(op: Op, keys: seq<seq<Byte>>, x: nat, bits: seq<bool>)
    requires keys != [] && |bits| == |keys| && forall i | 0 <= i < |keys| :: bits[i] == BitAt(keys[i], x)
    ensures Means(op, keys, x, Def(op, bits))
  {
    hide BitAt, Ones;
    OnesCard(bits);
    OnesAll(bits);
    OnesSome(bits);
    OnesSome(bits[1..]);
    assert (set i | 0 <= i < |bits| && bits[i]) == set i | 0 <= i < |keys| && BitAt(keys[i], x);
    assert (exists i :: 0 <= i < |bits[1..]| && bits[1..][i]) <==> exists i :: 1 <= i < |keys| && BitAt(keys[i], x) by {
      if i :| 1 <= i < |keys| && BitAt(keys[i], x) {
        assert bits[1..][i - 1];
      }
    }
  }

  lemma RightMeans(op: Op, keys: seq<seq<Byte>>, r: seq<Byte>, x: nat)
    requires keys != [] && x < 8 * |r| && Right(op, Column(keys, x / 8), r[x / 8])
    ensures Means(op, keys, x, BitAt(r, x))
  {
    hide BitOf, Means, Def;
    ColumnBits(keys, x);
    DefMeans(op, keys, x, BitsAt(Column(keys, x / 8), 7 - x % 8));
  }

  /**
   * BITOP on one or more strings, none of them required to exist: every bit of the
   * result is what the operation's definition says of the zero-padded inputs, and the
   * result is as long as the longest.
   */
  method Compute(op: Op, keys: seq<seq<Byte>>) returns (r: seq<Byte>)
    requires keys != []
    ensures forall i | 0 <= i < |keys| :: |keys[i]| <= |r|
    ensures exists i :: 0 <= i < |keys| && |keys[i]| == |r|
    ensures forall x | 0 <= x < |r| :: Right(op, Column(keys, x), r[x])
    ensures forall x: nat | x < 8 * |r| :: Means(op, keys, x, BitAt(r, x))
  {
    hide Right, Means, BitAt;
    var minlen, maxlen := |keys[0]|, |keys[0]|;
    var i := 1;
    while i < |keys|
      invariant 1 <= i <= |keys|
      invariant forall k | 0 <= k < i :: minlen <= |keys[k]| <= maxlen
      invariant exists k :: 0 <= k < i && |keys[k]| == maxlen
    {
      if |keys[i]| > maxlen {
        maxlen := |keys[i]|;
      }
      if |keys[i]| < minlen {
        minlen := |keys[i]|;
      }
      i := i + 1;
    }
    var res := new Byte[maxlen](_ => 0);
    var j := 0;
    if minlen >= 32 {
      j := FastPath(op, keys, minlen, res);
    }
    while j < maxlen
      invariant 0 <= j <= maxlen
      invariant forall x | 0 <= x < j :: Right(op, Column(keys, x), res[x])
    {
      res[j] := OneByte(op, keys, j);
      j := j + 1;
    }
    r := res[..];
    forall x: nat | x < 8 * |r|
      ensures Means(op, keys, x, BitAt(r, x))
    {
      assert Right(op, Column(keys, x / 8), r[x / 8]);
      RightMeans(op, keys, r, x);
    }
  }
}
