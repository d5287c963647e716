/** The Punycode encoder of a domain label, specified by the decoder of section 6.2 of RFC 3492. */
module Punycode {
  import Coding
  import opened Wrappers

  // Unsigned 32-bit arithmetic: an operation that could wrap does not fit this type.
  type uint32 = x: int | 0 <= x < 0x1_0000_0000
  const MAX32: uint32 := 0xffff_ffff

  // A decoded code point, or the marker for bytes that are not UTF-8.
  type CodePoint = c: int | 0 <= c <= 0x10ffff || c == 0xffff_ffff

  datatype Outcome = Written(text: string) | EInval | E2Big

  // ------------------------------------------------------------------ the decoder

  // Threshold of the digit at position k.
  function Threshold(k: nat, bias: nat): (t: nat)
    ensures 1 <= t <= 26
  {
    if k <= bias then 1 else if k - bias > 26 then 26 else k - bias
  }

  function DigitOf(ch: char): Option<nat> {
    if 'a' <= ch <= 'z' then Some(ch as int - 'a' as int)
    else if 'A' <= ch <= 'Z' then Some(ch as int - 'A' as int)
    else if '0' <= ch <= '9' then Some(ch as int - '0' as int + 26)
    else None
  }

  // Product, quotient and remainder of variables, named so that proofs can leave them closed.
  function Times(a: nat, b: nat): nat {
    a * b
  }

  function Div(x: nat, d: nat): nat
    requires d > 0
  {
    x / d
  }

  function Mod(x: nat, d: nat): nat
    requires d > 0
  {
    x % d
  }

  // A generalized variable-length integer, added to i; the second part is the rest of the text.
  function DecodeInt(s: string, i: nat, w: nat, k: nat, bias: nat): (r: Option<(nat, string)>)
    ensures r.Some? ==> |r.value.1| < |s|
    decreases |s|
  {
    if s == "" || DigitOf(s[0]).None? then None
    else
      var digit, t := DigitOf(s[0]).value, Threshold(k, bias);
      if digit < t then Some((i + Times(digit, w), s[1..]))
      else DecodeInt(s[1..], i + Times(digit, w), Times(w, 36 - t), k + 36, bias)
  }

  // The loop of the bias adaptation.
  function Scale(delta: nat, k: nat): nat {
    if delta > 455 then Scale(delta / 35, k + 36) else k + Div(36 * delta, delta + 38)
  }

  // Section 6.1: bias adaptation.
  function Adapt(delta: nat, numPoints: nat, first: bool): nat
    requires numPoints > 0
  {
    var d := if first then delta / 700 else delta / 2;
    Scale(d + Div(d, numPoints), 0)
  }

  datatype State = State(n: nat, i: nat, bias: nat, output: seq<nat>)

  function Inserted(output: seq<nat>, i: nat, n: nat): seq<nat>
    requires i <= |output|
  {
    output[..i] + [n] + output[i..]
  }

  // One insertion, after the integer that moved i to j.
  function Insert(st: State, j: nat): State
    requires st.i <= j
  {
    var points := |st.output| + 1;
    var n := st.n + j / points;
    State(n, j % points + 1, Adapt(j - st.i, points, st.i == 0), Inserted(st.output, j % points, n))
  }

  // The main loop, to the end of the text.
  function DecodeAll(s: string, st: State): Option<State>
    decreases |s|
  {
    if s == "" then Some(st)
    else match DecodeInt(s, st.i, 1, 36, st.bias)
         case None => None
         case Some((j, rest)) => if j < st.i then None else DecodeAll(rest, Insert(st, j))
  }

  // The position of the last delimiter, or the length of the text if there is none.
  function LastDelimiter(s: string): (b: nat)
    ensures b <= |s|
    decreases |s|
  {
    if s == "" then 0
    else
      var b := LastDelimiter(s[1..]);
      if b < |s| - 1 then b + 1 else if s[0] == '-' then 0 else |s|
  }

  function CodesOf(s: string): (r: seq<nat>)
    ensures |r| == |s| && forall i :: 0 <= i < |s| ==> r[i] == s[i] as int
  {
    seq(|s|, i requires 0 <= i < |s| => s[i] as int)
  }

  // Section 6.2: the decoder, in unbounded arithmetic.
  function Decode(s: string): Option<seq<nat>> {
    var b := LastDelimiter(s);
    var basic := if b < |s| then s[..b] else "";
    var extended := if 0 < b < |s| then s[b + 1..] else s;
    if exists i :: 0 <= i < |basic| && basic[i] as int >= 128 then None
    else match DecodeAll(extended, State(128, 0, 72, CodesOf(basic)))
         case None => None
         case Some(st) => Some(st.output)
  }

  // ------------------------------------------------------------------ the parameters

  /** Section 6.1 without its loop: what is left after the least number of divisions by 35 that gets it to 455 or below.
   */
  lemma AdaptIs(delta: nat, numPoints: nat, first: bool) returns (n: nat, left: nat)
    requires numPoints > 0
    ensures var d := (if first then delta / 700 else delta / 2)
            + (if first then delta / 700 else delta / 2) / numPoints;
            && left <= 455 && Divided(d, n) == left && (n > 0 ==> Divided(d, n - 1) > 455)
            && Adapt(delta, numPoints, first) == 36 * n + 36 * left / (left + 38)
  {
    var d := if first then delta / 700 else delta / 2;
    n, left := ScaleIs(d + Div(d, numPoints), 0);
  }

  // Divided by 35 that many times.
  function Divided(d: nat, n: nat): nat {
    if n == 0 then d else Divided(d, n - 1) / 35
  }

  lemma {:induction false} ScaleIs(delta: nat, k: nat) returns (n: nat, left: nat)
    ensures left <= 455 && Divided(delta, n) == left && (n > 0 ==> Divided(delta, n - 1) > 455)
    ensures Scale(delta, k) == k + 36 * n + 36 * left / (left + 38)
  {
    if delta > 455 {
      n, left := ScaleIs(delta / 35, k + 36);
      DividedFirst(delta, n);
      if n > 0 {
        DividedFirst(delta, n - 1);
      }
      n := n + 1;
    } else {
      n, left := 0, delta;
    }
  }

  lemma {:induction false} DividedFirst(d: nat, n: nat)
    ensures Divided(d / 35, n) == Divided(d, n + 1)
  {
    if n > 0 {
      DividedFirst(d, n - 1);
    }
  }

  // Section 5: thresholds from 1 to 26 around the bias, and digits of base 36, of which letters have both cases.
  lemma ThresholdIs(k: nat, bias: nat)
    ensures k <= bias + 1 ==> Threshold(k, bias) == 1
    ensures k >= bias + 26 ==> Threshold(k, bias) == 26
    ensures bias < k < bias + 26 ==> Threshold(k, bias) == k - bias
  {
  }

  // One digit of an integer, with its value and threshold.
  lemma OneDigit(ch: char, rest: string, i: nat, w: nat, k: nat, bias: nat, digit: nat, t: nat)
    requires DigitOf(ch) == Some(digit) && Threshold(k, bias) == t
    ensures DecodeInt([ch] + rest, i, w, k, bias) ==
              if digit < t then Some((i + digit * w, rest))
              else DecodeInt(rest, i + digit * w, w * (36 - t), k + 36, bias)
  {
    assert ([ch] + rest)[1..] == rest;
  }

  // The last code point takes one insertion with five digits.
  lemma LastPoint()
    ensures Decode("dn32g") == Some([0x10ffff])
  {
    hide DecodeInt, Decode, DecodeAll, Adapt;
    OneDigit('d', "n32g", 0, 1, 36, 72, 3, 1);
    OneDigit('n', "32g", 3, 35, 72, 72, 13, 1);
    OneDigit('3', "2g", 458, 1225, 108, 72, 29, 26);
    OneDigit('2', "g", 35983, 12250, 144, 72, 28, 26);
    OneDigit('g', "", 378983, 122500, 180, 72, 6, 26);
    assert ['d'] + "n32g" == "dn32g" && ['n'] + "32g" == "n32g" && ['3'] + "2g" == "32g" && ['2'] + "g" == "2g";
    assert ['g'] + "" == "g";
    var st := State(128, 0, 72, []);
    DecodesTo("dn32g", st, 1113983, "", State(0x10ffff, 1, Adapt(1113983, 1, true), [0x10ffff]));
    WithoutDelimiter("dn32g", State(0x10ffff, 1, Adapt(1113983, 1, true), [0x10ffff]));
  }

  lemma DecodesTo(s: string, st: State, j: nat, rest: string, next: State)
    requires s != "" && st.i <= j && DecodeInt(s, st.i, 1, 36, st.bias) == Some((j, rest)) && Insert(st, j) == next
    ensures DecodeAll(s, st) == if rest == "" then Some(next) else DecodeAll(rest, next)
  {
    hide DecodeInt, Insert;
  }

  lemma WithoutDelimiter(s: string, st: State)
    requires '-' !in s && DecodeAll(s, State(128, 0, 72, [])) == Some(st)
    ensures Decode(s) == Some(st.output)
  {
    hide DecodeAll;
    NoDelimiter(s);
    assert CodesOf("") == [];
  }

  // Two code points, with the bias after each of them.
  lemma TwoPoints()
    ensures Decode("nts55c") == Some([0x5b89, 0x5948])
  {
    hide DecodeInt, Decode, DecodeAll, Adapt, Insert;
    OneDigit('n', "ts55c", 0, 1, 36, 72, 13, 1);
    OneDigit('t', "s55c", 13, 35, 72, 72, 19, 1);
    OneDigit('s', "55c", 678, 1225, 108, 72, 18, 26);
    assert ['n'] + "ts55c" == "nts55c" && ['t'] + "s55c" == "ts55c" && ['s'] + "55c" == "s55c";
    OneDigit('5', "5c", 1, 1, 36, 22, 31, 14);
    OneDigit('5', "c", 32, 22, 72, 22, 31, 26);
    OneDigit('c', "", 714, 220, 108, 22, 2, 26);
    assert ['5'] + "5c" == "55c" && ['5'] + "c" == "5c" && ['c'] + "" == "c";
    TwoInserted();
    DecodesTo("55c", State(0x5948, 1, 22, [0x5948]), 1154, "", State(0x5b89, 1, 49, [0x5b89, 0x5948]));
    DecodesTo("nts55c", State(128, 0, 72, []), 22728, "55c", State(0x5948, 1, 22, [0x5948]));
    WithoutDelimiter("nts55c", State(0x5b89, 1, 49, [0x5b89, 0x5948]));
  }

  lemma TwoInserted()
    ensures Insert(State(128, 0, 72, []), 22728) == State(0x5948, 1, 22, [0x5948])
    ensures Insert(State(0x5948, 1, 22, [0x5948]), 1154) == State(0x5b89, 1, 49, [0x5b89, 0x5948])
  {
    hide Adapt, Scale;
    TwoBiases();
    assert Inserted([], 0, 0x5948) == [0x5948];
    assert Inserted([0x5948], 0, 0x5b89) == [0x5b89, 0x5948];
  }

  lemma TwoBiases()
    ensures Adapt(22728, 1, true) == 22 && Adapt(1153, 2, false) == 49
  {
    assert Div(32, 1) == 32 && Scale(64, 0) == 22;
    assert Div(576, 2) == 288 && Scale(864, 0) == Scale(24, 36) == 49;
  }

  // ------------------------------------------------------------------ integers

  function Alphabet(d: nat): char
    requires d < 36
  {
    "abcdefghijklmnopqrstuvwxyz0123456789"[d]
  }

  lemma AlphabetDigit(d: nat)
    requires d < 36
    ensures DigitOf(Alphabet(d)) == Some(d) && Alphabet(d) != '-'
  {
  }

  lemma DivBounds(x: nat, d: nat)
    requires 10 <= d
    ensures Div(x, d) <= x / 10 && 0 <= Mod(x, d) < d && x == Div(x, d) * d + Mod(x, d)
  {
    var a := x / d;
    assert x == a * d + x % d;
    assert a * d >= a * 10 by { Coding.MulMonotone(a, 10, d); }
  }

  // The digit for q at a threshold it reaches, and what is left of q after it.
  function LowDigit(q: nat, t: nat): (d: nat)
    requires 1 <= t <= 26 && q >= t
    ensures t <= d < 36
  {
    DivBounds(q - t, 36 - t);
    t + Mod(q - t, 36 - t)
  }

  function Higher(q: nat, t: nat): (r: nat)
    requires 1 <= t <= 26 && q >= t
    ensures 10 * r < q
  {
    DivBounds(q - t, 36 - t);
    Div(q - t, 36 - t)
  }

  // The integer q, digit by digit from position k.
  function Integer(q: nat, k: nat, bias: nat): string
    decreases q
  {
    var t := Threshold(k, bias);
    if q < t then [Alphabet(q)]
    else [Alphabet(LowDigit(q, t))] + Integer(Higher(q, t), k + 36, bias)
  }

  lemma DigitSum(q: nat, t: nat, i: nat, w: nat)
    requires 1 <= t <= 26 && q >= t
    ensures i + Times(LowDigit(q, t), w) + Times(Higher(q, t), Times(w, 36 - t)) == i + Times(q, w)
  {
    var d, a, b := 36 - t, Div(q - t, 36 - t), Mod(q - t, 36 - t);
    DivBounds(q - t, d);
    assert a * (w * d) == (a * d) * w;
    assert (t + b) * w + (a * d) * w == (t + b + a * d) * w;
  }

  lemma {:induction false} IntegerRoundTrip(q: nat, i: nat, w: nat, k: nat, bias: nat, rest: string)
    ensures DecodeInt(Integer(q, k, bias) + rest, i, w, k, bias) == Some((i + Times(q, w), rest))
    decreases q
  {
    hide LowDigit, Higher, Threshold, Alphabet, DecodeInt, Times;
    var t := Threshold(k, bias);
    if q < t {
      DecodeDigit(q, rest, i, w, k, bias);
    } else {
      var digit, more := LowDigit(q, t), Integer(Higher(q, t), k + 36, bias);
      assert Integer(q, k, bias) + rest == [Alphabet(digit)] + (more + rest);
      DecodeDigit(digit, more + rest, i, w, k, bias);
      IntegerRoundTrip(Higher(q, t), i + Times(digit, w), Times(w, 36 - t), k + 36, bias, rest);
      DigitSum(q, t, i, w);
    }
  }

  lemma DecodeDigit(d: nat, rest: string, i: nat, w: nat, k: nat, bias: nat)
    requires d < 36
    ensures var t := Threshold(k, bias);
            DecodeInt([Alphabet(d)] + rest, i, w, k, bias) ==
              if d < t then Some((i + Times(d, w), rest))
              else DecodeInt(rest, i + Times(d, w), Times(w, 36 - t), k + 36, bias)
  {
    AlphabetDigit(d);
    assert ([Alphabet(d)] + rest)[1..] == rest;
    hide Alphabet, DigitOf, Threshold, Times;
  }

  lemma {:induction false} IntegerHasNoDelimiter(q: nat, k: nat, bias: nat)
    ensures '-' !in Integer(q, k, bias)
    decreases q
  {
    hide LowDigit, Higher, Threshold, Alphabet, DigitOf;
    var t := Threshold(k, bias);
    if q < t {
      AlphabetDigit(q);
    } else {
      AlphabetDigit(LowDigit(q, t));
      IntegerHasNoDelimiter(Higher(q, t), k + 36, bias);
    }
  }

  lemma {:induction false} DecodeIntPrefix(s: string, rest: string, i: nat, w: nat, k: nat, bias: nat)
    requires DecodeInt(s, i, w, k, bias).Some?
    ensures var r := DecodeInt(s, i, w, k, bias).value;
            DecodeInt(s + rest, i, w, k, bias) == Some((r.0, r.1 + rest))
    decreases |s|
  {
    hide Threshold, DigitOf, Times;
    assert (s + rest)[0] == s[0] && (s + rest)[1..] == s[1..] + rest;
    var digit, t := DigitOf(s[0]).value, Threshold(k, bias);
    if digit >= t {
      DecodeIntPrefix(s[1..], rest, i + Times(digit, w), Times(w, 36 - t), k + 36, bias);
    }
  }

  // Text decoded so far can be extended.
  lemma {:induction false} DecodeMore(s: string, rest: string, st: State)
    requires DecodeAll(s, st).Some?
    ensures DecodeAll(s + rest, st) == DecodeAll(rest, DecodeAll(s, st).value)
    decreases |s|
  {
    if s == "" {
      assert s + rest == rest;
    } else {
      DecodeIntPrefix(s, rest, st.i, 1, 36, st.bias);
      var (j, tail) := DecodeInt(s, st.i, 1, 36, st.bias).value;
      DecodeMore(tail, rest, Insert(st, j));
    }
  }

  lemma DecodeSingle(st: State, delta: nat)
    ensures DecodeAll(Integer(delta, 36, st.bias), st) == Some(Insert(st, st.i + delta))
  {
    hide Integer, Insert, DecodeInt;
    var one := Integer(delta, 36, st.bias);
    IntegerRoundTrip(delta, st.i, 1, 36, st.bias, "");
    assert one + "" == one;
    EmptyHasNoInt(st.i, 1, 36, st.bias);
    assert DecodeAll("", Insert(st, st.i + delta)) == Some(Insert(st, st.i + delta));
  }

  lemma EmptyHasNoInt(i: nat, w: nat, k: nat, bias: nat)
    ensures DecodeInt("", i, w, k, bias) == None
  {
  }

  // Appending an integer to text makes the decoder do one more insertion.
  lemma DecodeOne(s: string, st0: State, st: State, delta: nat)
    requires DecodeAll(s, st0) == Some(st)
    ensures DecodeAll(s + Integer(delta, 36, st.bias), st0) == Some(Insert(st, st.i + delta))
  {
    hide DecodeAll;
    DecodeMore(s, Integer(delta, 36, st.bias), st0);
    DecodeSingle(st, delta);
  }

  // ------------------------------------------------------------------ what is encoded so far

  // The code points below n, and those equal to n before position j.
  function Handled(input: seq<nat>, n: nat, j: nat): (r: seq<nat>)
    ensures |r| <= |input|
    decreases |input|
  {
    if input == [] then []
    else
      var last := |input| - 1;
      Handled(input[..last], n, j) + Last(input[last], n, last < j)
  }

  function Last(c: nat, n: nat, before: bool): (r: seq<nat>)
    ensures |r| <= 1
  {
    if c < n || (c == n && before) then [c] else []
  }

  // Where the code point at position j goes among them.
  function Place(input: seq<nat>, n: nat, j: nat): nat
    requires j <= |input|
  {
    |Handled(input[..j], n, j)|
  }

  lemma {:induction false} PlaceFits(input: seq<nat>, n: nat, j: nat)
    requires j <= |input|
    ensures Place(input, n, j) <= |Handled(input, n, j)|
    decreases |input|
  {
    if j == |input| {
      assert input[..j] == input;
    } else {
      PlaceFits(input[..|input| - 1], n, j);
      assert input[..|input| - 1][..j] == input[..j];
    }
  }

  lemma {:induction false} HandledPrefix(input: seq<nat>, n: nat, i: nat, j: nat)
    requires |input| <= i && |input| <= j
    ensures Handled(input, n, i) == Handled(input, n, j)
    decreases |input|
  {
    if input != [] {
      HandledPrefix(input[..|input| - 1], n, i, j);
    }
  }

  lemma PlaceStep(input: seq<nat>, n: nat, j: nat)
    requires j < |input|
    ensures Place(input, n, j + 1) == Place(input, n, j) + if input[j] <= n then 1 else 0
  {
    assert input[..j + 1][..j] == input[..j];
    HandledPrefix(input[..j], n, j, j + 1);
  }

  // A position that does not hold n changes nothing.
  lemma {:induction false} HandledSkip(input: seq<nat>, n: nat, j: nat)
    requires j < |input| && input[j] != n
    ensures Handled(input, n, j + 1) == Handled(input, n, j)
    decreases |input|
  {
    if j < |input| - 1 {
      HandledSkip(input[..|input| - 1], n, j);
    } else {
      HandledPrefix(input[..j], n, j, j + 1);
    }
  }

  // A position that holds n is inserted at its place.
  lemma {:induction false} HandledInsert(input: seq<nat>, n: nat, j: nat)
    requires j < |input| && input[j] == n
    ensures Place(input, n, j) <= |Handled(input, n, j)|
    ensures Handled(input, n, j + 1) == Inserted(Handled(input, n, j), Place(input, n, j), n)
    decreases |input|
  {
    hide Handled, Last, Place, Inserted;
    PlaceFits(input, n, j);
    var front, last := input[..|input| - 1], |input| - 1;
    if j < last {
      HandledInsert(front, n, j);
      HandledFront(input, n, j);
      InsertedAppend(Handled(front, n, j), Place(input, n, j), n, Last(input[last], n, false));
    } else {
      HandledInsertLast(input, n);
    }
  }

  lemma HandledFront(input: seq<nat>, n: nat, j: nat)
    requires j < |input| - 1
    ensures var front, tail := input[..|input| - 1], Last(input[|input| - 1], n, false);
            && Place(front, n, j) == Place(input, n, j)
            && Handled(input, n, j) == Handled(front, n, j) + tail &&
               Handled(input, n, j + 1) == Handled(front, n, j + 1) + tail
  {
    assert input[..|input| - 1][..j] == input[..j];
  }

  lemma HandledInsertLast(input: seq<nat>, n: nat)
    requires input != [] && input[|input| - 1] == n
    ensures var j := |input| - 1;
            && Place(input, n, j) == |Handled(input, n, j)|
            && Handled(input, n, j + 1) == Inserted(Handled(input, n, j), Place(input, n, j), n)
  {
    var j := |input| - 1;
    HandledPrefix(input[..j], n, j, j + 1);
  }

  lemma InsertedAppend(output: seq<nat>, i: nat, n: nat, tail: seq<nat>)
    requires i <= |output|
    ensures Inserted(output + tail, i, n) == Inserted(output, i, n) + tail
  {
  }

  lemma {:induction false} HandledLevels(input: seq<nat>, n: nat, m: nat, i: nat)
    requires n <= m && forall k :: 0 <= k < |input| ==> ((input[k] < n || (input[k] == n && k < i)) <==> (input[k] < m))
    ensures Handled(input, n, i) == Handled(input, m, 0)
    decreases |input|
  {
    if input != [] {
      HandledLevels(input[..|input| - 1], n, m, i);
    }
  }

  lemma {:induction false} AllHandled(input: seq<nat>, n: nat, j: nat)
    ensures |Handled(input, n, j)| == |input| ==> Handled(input, n, j) == input
    ensures |Handled(input, n, j)| < |input| ==> exists k :: 0 <= k < |input| && input[k] >= n
    decreases |input|
  {
    if input != [] {
      AllHandled(input[..|input| - 1], n, j);
    }
  }

  // ------------------------------------------------------------------ the encoder

  // The loop variables of the encoder and the text after the separator.
  datatype Vars = Vars(h: uint32, todo: uint32, delta: uint32, bias: uint32, first: bool, text: string)

  // The decoder, started in st0 on the text so far, stands at st; delta leads it to position j at level n.
  ghost predicate Synced(input: seq<nat>, v: Vars, n: nat, j: nat, st0: State, st: State) {
    && j <= |input| && st.output == Handled(input, n, j) && v.h == |st.output| && v.todo == |input| - v.h
    && st.bias == v.bias && (v.first <==> st.i == 0) && st.n <= n
    && v.delta == (n - st.n) * (v.h + 1) + Place(input, n, j) - st.i
    && DecodeAll(v.text, st0) == Some(st) && '-' !in v.text
  }

  lemma StepBelow(input: seq<nat>, v: Vars, n: nat, j: nat, st0: State, st: State)
    requires Synced(input, v, n, j, st0, st) && j < |input| && input[j] < n && v.delta < MAX32
    ensures Synced(input, v.(delta := v.delta + 1), n, j + 1, st0, st)
  {
    hide Handled, Place, DecodeAll;
    PlaceStep(input, n, j);
    HandledSkip(input, n, j);
  }

  lemma StepAbove(input: seq<nat>, v: Vars, n: nat, j: nat, st0: State, st: State)
    requires Synced(input, v, n, j, st0, st) && j < |input| && input[j] > n
    ensures Synced(input, v, n, j + 1, st0, st)
  {
    hide Handled, Place, DecodeAll;
    PlaceStep(input, n, j);
    HandledSkip(input, n, j);
  }

  lemma QuotientPlace(levels: nat, points: nat, place: nat)
    requires place < points
    ensures (levels * points + place) / points == levels && (levels * points + place) % points == place
  {
    Coding.DivModUnique(levels * points + place, points, levels, place);
  }

  // What the decoder does with the integer delta.
  lemma InsertIs(input: seq<nat>, v: Vars, n: nat, j: nat, st0: State, st: State)
    requires Synced(input, v, n, j, st0, st) && j < |input| && input[j] == n
    ensures Place(input, n, j) <= |st.output|
    ensures Insert(st, st.i + v.delta) == State(n, Place(input, n, j) + 1, Adapt(v.delta, v.h + 1, v.first),
                                                Inserted(st.output, Place(input, n, j), n))
  {
    hide Handled, Place, DecodeAll, Adapt;
    PlaceFits(input, n, j);
    QuotientPlace(n - st.n, v.h + 1, Place(input, n, j));
  }

  lemma StepInsert(input: seq<nat>, v: Vars, n: nat, j: nat, st0: State, st: State, w: Vars)
    requires Synced(input, v, n, j, st0, st) && j < |input| && input[j] == n && v.h < |input|
    requires w.h == v.h + 1 && w.todo == v.todo - 1 && w.delta == 0 && !w.first
    requires w.bias == Adapt(v.delta, v.h + 1, v.first) && w.text == v.text + Integer(v.delta, 36, v.bias)
    ensures Synced(input, w, n, j + 1, st0, Insert(st, st.i + v.delta))
  {
    hide Handled, Place, DecodeAll, Adapt, Integer;
    InsertIs(input, v, n, j, st0, st);
    PlaceStep(input, n, j);
    HandledInsert(input, n, j);
    DecodeOne(v.text, st0, st, v.delta);
    IntegerHasNoDelimiter(v.delta, 36, v.bias);
  }

  lemma NextLevel(input: seq<nat>, v: Vars, n: nat, st0: State, st: State)
    requires Synced(input, v, n, |input|, st0, st) && v.delta < MAX32
    ensures Synced(input, v.(delta := v.delta + 1), n + 1, 0, st0, st)
  {
    HandledLevels(input, n, n + 1, |input|);
    assert input[..|input|] == input && input[..0] == [];
    assert Handled(input[..0], n + 1, 0) == [];
    hide Handled, DecodeAll;
    assert (n + 1 - st.n) * (v.h + 1) == (n - st.n) * (v.h + 1) + v.h + 1;
  }

  lemma RaiseLevel(input: seq<nat>, v: Vars, n: nat, m: nat, st0: State, st: State)
    requires Synced(input, v, n, 0, st0, st) && n <= m && forall k :: 0 <= k < |input| ==> input[k] < n || m <= input[k]
    ensures v.delta + (m - n) * (v.h + 1) == (m - st.n) * (v.h + 1) - st.i
    ensures v.delta + (m - n) * (v.h + 1) <= MAX32 ==>
              Synced(input, v.(delta := v.delta + (m - n) * (v.h + 1)), m, 0, st0, st)
  {
    HandledLevels(input, n, m, 0);
    assert input[..0] == [];
    hide Handled, DecodeAll;
    assert Place(input, n, 0) == 0 == Place(input, m, 0);
    assert (m - st.n) * (v.h + 1) == (m - n) * (v.h + 1) + (n - st.n) * (v.h + 1);
  }

  // ------------------------------------------------------------------ distances

  // The decoder inserts the code point at position l before it gets to position j at level n.
  predicate Sooner(input: seq<nat>, l: nat, n: nat, j: nat)
    requires l < |input|
  {
    128 <= input[l] && (input[l] < n || (input[l] == n && l < j))
  }

  // The position of the last one inserted before that.
  function Latest(input: seq<nat>, n: nat, j: nat): (r: Option<nat>)
    ensures r.None? ==> forall l :: 0 <= l < |input| ==> !Sooner(input, l, n, j)
    ensures r.Some? ==> r.value < |input| && Sooner(input, r.value, n, j)
    ensures r.Some? ==> forall l :: 0 <= l < |input| && Sooner(input, l, n, j) ==>
                          l == r.value || Sooner(input, l, input[r.value], r.value)
    decreases |input|
  {
    if input == [] then None
    else
      var last := |input| - 1;
      var r := Latest(input[..last], n, j);
      assert forall l :: 0 <= l < last ==> (Sooner(input, l, n, j) <==> Sooner(input[..last], l, n, j));
      if Sooner(input, last, n, j) && (r.None? || input[r.value] <= input[last]) then Some(last) else r
  }

  // The level and the index at which that insertion leaves the decoder.
  function From(input: seq<nat>, n: nat, j: nat): (nat, nat) {
    match Latest(input, n, j)
    case None => (128, 0)
    case Some(p) => (input[p], Place(input, input[p], p) + 1)
  }

  /** The integer that stands for the code point at position l: the number of states the decoder steps over, which for
      each level are one more than the code points it has inserted.
   */
  function Distance(input: seq<nat>, l: nat): int
    requires l < |input|
  {
    var n := input[l];
    var (level, index) := From(input, n, l);
    (n - level) * (|Handled(input, n, l)| + 1) + Place(input, n, l) - index
  }

  // Some distance does not fit 32 bits.
  ghost predicate TooFar(input: seq<nat>) {
    exists l :: 0 <= l < |input| && 128 <= input[l] && Distance(input, l) > MAX32
  }

  // The decoder stands where its last insertion left it, and the distances so far fit.
  ghost predicate Tracked(input: seq<nat>, n: nat, j: nat, st: State) {
    && (st.n, st.i) == From(input, n, j)
    && forall l :: 0 <= l < |input| && Sooner(input, l, n, j) ==> Distance(input, l) <= MAX32
  }

  lemma TrackedStart(input: seq<nat>, st: State)
    requires st.n == 128 && st.i == 0
    ensures Tracked(input, 128, 0, st)
  {
  }

  lemma LatestFrame(input: seq<nat>, n: nat, j: nat, m: nat, k: nat)
    requires forall l :: 0 <= l < |input| ==> (Sooner(input, l, n, j) <==> Sooner(input, l, m, k))
    ensures Latest(input, n, j) == Latest(input, m, k)
  {
    if Latest(input, n, j).Some? && Latest(input, m, k).Some? {
      var p, q := Latest(input, n, j).value, Latest(input, m, k).value;
      assert Sooner(input, p, m, k) && Sooner(input, q, n, j);
    }
  }

  lemma TrackedFrame(input: seq<nat>, n: nat, j: nat, m: nat, k: nat, st: State)
    requires Tracked(input, n, j, st)
    requires forall l :: 0 <= l < |input| ==> (Sooner(input, l, n, j) <==> Sooner(input, l, m, k))
    ensures Tracked(input, m, k, st)
  {
    hide Distance, Place;
    LatestFrame(input, n, j, m, k);
  }

  lemma TrackedInsert(input: seq<nat>, v: Vars, n: nat, j: nat, st0: State, st: State)
    requires Synced(input, v, n, j, st0, st) && Tracked(input, n, j, st) && j < |input| && input[j] == n && 128 <= n
    ensures Tracked(input, n, j + 1, Insert(st, st.i + v.delta))
  {
    hide Place, Insert, Adapt, Handled, DecodeAll;
    InsertIs(input, v, n, j, st0, st);
    assert Sooner(input, j, n, j + 1);
    assert Latest(input, n, j + 1) == Some(j);
    assert Distance(input, j) == v.delta;
  }

  // A distance that reaches delta at position j is at least that where level n next occurs.
  lemma {:induction false} FarAhead(input: seq<nat>, n: nat, j: nat, k: nat, st: State, delta: int)
    requires j <= k < |input| && input[k] == n && (st.n, st.i) == From(input, n, j)
    requires delta == (n - st.n) * (|Handled(input, n, j)| + 1) + Place(input, n, j) - st.i
    ensures exists l :: 0 <= l < |input| && input[l] == n && Distance(input, l) >= delta + if input[j] < n then 1 else 0
    decreases k - j
  {
    hide Place, Handled;
    if input[j] == n {
      assert Distance(input, j) == delta;
    } else {
      PlaceStep(input, n, j);
      HandledSkip(input, n, j);
      LatestFrame(input, n, j, n, j + 1);
      FarAhead(input, n, j + 1, k, st, delta + if input[j] < n then 1 else 0);
    }
  }

  lemma PassOverflow(input: seq<nat>, v: Vars, n: nat, j: nat, k: nat, st0: State, st: State)
    requires Synced(input, v, n, j, st0, st) && Tracked(input, n, j, st) && v.delta == MAX32
    requires j <= k < |input| && input[j] < n && input[k] == n && 128 <= n
    ensures TooFar(input)
  {
    hide Distance, From, Place, Handled, DecodeAll;
    FarAhead(input, n, j, k, st, v.delta);
  }

  lemma RaiseOverflow(input: seq<nat>, v: Vars, n: nat, m: nat, k: nat, st0: State, st: State)
    requires Synced(input, v, n, 0, st0, st) && Tracked(input, n, 0, st)
    requires 128 <= n <= m && k < |input| && input[k] == m
    requires forall k :: 0 <= k < |input| ==> input[k] < n || m <= input[k]
    requires v.delta + (m - n) * (v.h + 1) > MAX32
    ensures TooFar(input)
  {
    hide Distance, From, DecodeAll;
    RaiseLevel(input, v, n, m, st0, st);
    HandledLevels(input, n, m, 0);
    assert input[..0] == [];
    TrackedFrame(input, n, 0, m, 0, st);
    FarAhead(input, m, 0, k, st, v.delta + (m - n) * (v.h + 1));
  }

  // When every code point is handled, every distance was in range.
  lemma NeverTooFar(input: seq<nat>, v: Vars, n: nat, st0: State, st: State)
    requires Synced(input, v, n, 0, st0, st) && Tracked(input, n, 0, st) && v.todo == 0
    ensures !TooFar(input)
  {
    hide Distance, From, Place, Handled, DecodeAll;
    HandledBelow(input, n);
  }

  lemma {:induction false} HandledBelow(input: seq<nat>, n: nat)
    ensures |Handled(input, n, 0)| == |input| ==> forall k :: 0 <= k < |input| ==> input[k] < n
    decreases |input|
  {
    if input != [] {
      HandledBelow(input[..|input| - 1], n);
    }
  }

  /** A label of at most 3855 code points always fits. */
  lemma ShortLabelsFit(input: seq<nat>)
    requires |input| <= 3855 && forall l :: 0 <= l < |input| ==> input[l] <= 0x10ffff
    ensures !TooFar(input)
  {
    forall l | 0 <= l < |input| && 128 <= input[l] ensures Distance(input, l) <= MAX32 {
      var n := input[l];
      PlaceFits(input, n, l);
      NotAllHandled(input, n, l);
      var (level, index) := From(input, n, l);
      assert 128 <= level <= n;
      hide From, Place, Handled;
      Coding.MulMonotone(n - level, |Handled(input, n, l)| + 1, 3855);
      Coding.MulMonotone(3855, n - level, 0x10ffff - 128);
    }
  }

  /** No longer bound would do: this label of 3856 code points does not fit. */
  lemma LongLabelTooFar(input: seq<nat>)
    requires |input| == 3856 && input[3855] == 0x10ffff && Ascii(input[..3855])
    ensures TooFar(input)
  {
    hide Handled;
    var l := 3855;
    AsciiHandled(input[..l], 0x10ffff, l);
    assert Latest(input, 0x10ffff, l).None?;
    LastNotHandled(input);
    assert Distance(input, l) > MAX32;
  }

  lemma {:induction false} AsciiHandled(input: seq<nat>, n: nat, j: nat)
    requires Ascii(input) && n >= 128
    ensures |Handled(input, n, j)| == |input|
    decreases |input|
  {
    if input != [] {
      AsciiHandled(input[..|input| - 1], n, j);
    }
  }

  lemma LastNotHandled(input: seq<nat>)
    requires input != []
    ensures var l := |input| - 1; Handled(input, input[l], l) == Handled(input[..l], input[l], l)
  {
  }

  lemma RoundStep(text: string, q: nat, t: nat, k: nat, bias: nat)
    requires t == Threshold(k, bias) && q >= t
    ensures 10 * Div(q - t, 36 - t) <= q && Mod(q - t, 36 - t) < 36 - t
    ensures text + Integer(q, k, bias) ==
              text + [Alphabet(t + Mod(q - t, 36 - t))] + Integer(Div(q - t, 36 - t), k + 36, bias)
  {
    hide Alphabet, Div, Mod;
    DivBounds(q - t, 36 - t);
    assert Integer(q, k, bias) == [Alphabet(LowDigit(q, t))] + Integer(Higher(q, t), k + 36, bias);
    hide Integer;
  }

  method ThresholdOf(k: uint32, bias: uint32) returns (t: uint32)
    ensures t == Threshold(k, bias)
  {
    t := 1;
    if k > bias {
      t := k - bias;
    }
    if t > 26 {
      t := 26;
    }
  }

  lemma RoundBound(q: nat, t: nat, rounds: nat)
    requires 1 <= t <= 26 && q >= t && rounds <= 32 && q < Pow2(32 - rounds) && 10 * Div(q - t, 36 - t) <= q
    ensures rounds < 32 && Div(q - t, 36 - t) < Pow2(31 - rounds)
  {
    hide Div;
  }

  // What the digit loop keeps: the text so far and the digits of q make up the integer, and few rounds are done.
  ghost predicate Digits(text: string, q: nat, k: nat, bias: nat, rounds: nat, delta: nat) {
    rounds <= 32 && k == 36 * (rounds + 1) && q < Pow2(32 - rounds) &&
        text + Integer(q, k, bias) == Integer(delta, 36, bias)
  }

  lemma DigitsStart(delta: uint32, bias: nat)
    ensures Digits("", delta, 36, bias, 0, delta)
  {
    Pow2Is32();
    assert "" + Integer(delta, 36, bias) == Integer(delta, 36, bias);
  }

  lemma DigitsStep(text: string, q: nat, t: nat, k: nat, bias: nat, rounds: nat, delta: nat)
    requires Digits(text, q, k, bias, rounds, delta) && t == Threshold(k, bias) && q >= t
    ensures Div(q - t, 36 - t) < q && t + Mod(q - t, 36 - t) < 36 && k + 36 <= 36 * 33
    ensures Digits(text + [Alphabet(t + Mod(q - t, 36 - t))], Div(q - t, 36 - t), k + 36, bias, rounds + 1, delta)
  {
    hide Integer, Alphabet, Div, Mod, Pow2;
    RoundStep(text, q, t, k, bias);
    RoundBound(q, t, rounds);
  }

  // The digit loop.
  method EncodeDelta(delta: uint32, bias: uint32) returns (text: string)
    ensures text == Integer(delta, 36, bias)
  {
    text := "";
    var q: uint32, k: uint32 := delta, 36;
    ghost var rounds := 0;
    DigitsStart(delta, bias);
    hide Digits, Div, Mod, Threshold, Alphabet, Integer;
    while true
      invariant Digits(text, q, k, bias, rounds, delta)
      decreases q
    {
      var t := ThresholdOf(k, bias);
      if q < t {
        break;
      }
      var x: uint32 := q - t;
      var y: uint32 := 36 - t;
      DigitsStep(text, q, t, k, bias, rounds, delta);
      q := Div(x, y);
      text := text + [Alphabet(t + Mod(x, y))];
      k := k + 36;
      rounds := rounds + 1;
    }
    DigitsEnd(text, q, k, bias, rounds, delta);
    text := text + [Alphabet(q)];
  }

  lemma DigitsEnd(text: string, q: nat, k: nat, bias: nat, rounds: nat, delta: nat)
    requires Digits(text, q, k, bias, rounds, delta) && q < Threshold(k, bias)
    ensures text + [Alphabet(q)] == Integer(delta, 36, bias)
  {
    hide Pow2;
  }

  lemma Pow2Is32()
    ensures Pow2(32) == 0x1_0000_0000
  {
    assert Pow2(8) == 256;
    assert Pow2(16) == 65536;
    assert Pow2(24) == 0x100_0000;
  }

  // The bias adaptation; h is the number of code points after the insertion.
  method AdaptBias(delta0: uint32, h: uint32, first: bool) returns (bias: uint32)
    requires h > 0
    ensures bias == Adapt(delta0, h, first)
  {
    hide Div, Scale;
    var delta := delta0 / 2;
    if first {
      delta := delta / 350;
    }
    DivAtMost(delta, h);
    delta := delta + Div(delta, h);
    bias := 0;
    ghost var start := delta;
    while delta > 35 * 26 / 2
      invariant 0 <= delta && bias + delta <= start <= delta0
      invariant Scale(delta, bias) == Scale(start, 0)
    {
      ScaleUnfold(delta, bias);
      delta := delta / 35;
      bias := bias + 36;
    }
    ScaleUnfold(delta, bias);
    SkewAtMost(delta);
    bias := bias + Div(36 * delta, delta + 38);
  }

  lemma ScaleUnfold(delta: nat, k: nat)
    ensures Scale(delta, k) == if delta > 455 then Scale(delta / 35, k + 36) else k + Div(36 * delta, delta + 38)
  {
  }

  lemma SkewAtMost(delta: nat)
    ensures Div(36 * delta, delta + 38) <= delta
  {
    var d := delta + 38;
    var q := 36 * delta / d;
    assert 36 * delta == q * d + 36 * delta % d;
    assert 36 * delta <= d * delta;
  }

  lemma DivAtMost(x: nat, d: nat)
    requires d > 0
    ensures Div(x, d) <= x
  {
    var q := x / d;
    assert x == q * d + x % d;
    Coding.MulMonotone(q, 1, d);
  }

  // ------------------------------------------------------------------ one pass over the label

  lemma NotAllHandled(input: seq<nat>, n: nat, j: nat)
    requires j < |input| && input[j] == n
    ensures |Handled(input, n, j)| < |input|
  {
    hide Handled, Place;
    HandledInsert(input, n, j);
  }

  // A pass over the label inserts every code point equal to n.  It fails only if a distance does not fit.
  method Pass(input: seq<CodePoint>, v0: Vars, n: uint32, ghost st0: State, ghost at: State, ghost k: nat)
    returns (ok: bool, v: Vars, ghost st: State)
    requires Synced(input, v0, n, 0, st0, at) && Tracked(input, n, 0, at) && |input| < MAX32
    requires 128 <= n <= 0x10ffff && k < |input| && input[k] == n
    ensures ok ==> Synced(input, v, n, |input|, st0, st) && v.delta <= |input| && v.todo < v0.todo
    ensures ok ==> Tracked(input, n, |input|, st)
    ensures !ok ==> TooFar(input)
  {
    v, st, ok := v0, at, true;
    var j := 0;
    hide Synced, Tracked, TooFar, Integer, Adapt, Insert;
    while j < |input|
      invariant 0 <= j <= |input| && Synced(input, v, n, j, st0, st) && Tracked(input, n, j, st)
      invariant v.todo <= v0.todo && (j > k ==> v.delta <= j && v.todo < v0.todo)
    {
      var c := input[j];
      if c < n {
        if v.delta == MAX32 {
          PassOverflow(input, v, n, j, k, st0, st);
          ok := false;
          return;
        }
        StepBelow(input, v, n, j, st0, st);
        TrackedFrame(input, n, j, n, j + 1, st);
        v := v.(delta := v.delta + 1);
      } else if c == n {
        v, st := InsertPoint(input, v, n, j, st0, st);
      } else {
        StepAbove(input, v, n, j, st0, st);
        TrackedFrame(input, n, j, n, j + 1, st);
      }
      j := j + 1;
    }
  }

  // Writes the distance and adapts the bias for the code point at position j.
  method InsertPoint(input: seq<CodePoint>, v: Vars, ghost n: nat, ghost j: nat, ghost st0: State, ghost at: State)
    returns (w: Vars, ghost st: State)
    requires |input| < MAX32 && j < |input| && input[j] == n && 128 <= n
    requires Synced(input, v, n, j, st0, at) && Tracked(input, n, j, at)
    ensures Synced(input, w, n, j + 1, st0, st) && Tracked(input, n, j + 1, st)
    ensures w.delta == 0 && w.todo < v.todo
  {
    NotAllHandled(input, n, j);
    var digits := EncodeDelta(v.delta, v.bias);
    // No wrap: fewer than |input| code points are handled
    var h: uint32 := v.h + 1;
    var bias := AdaptBias(v.delta, h, v.first);
    w := Vars(h, v.todo - 1, 0, bias, false, v.text + digits);
    st := Insert(at, at.i + v.delta);
    StepInsert(input, v, n, j, st0, at, w);
    TrackedInsert(input, v, n, j, st0, at);
  }

  // ------------------------------------------------------------------ the text around it

  predicate Ascii(input: seq<nat>) {
    forall i :: 0 <= i < |input| ==> input[i] < 128
  }

  // The ASCII code points of the label, as characters.
  function BasicText(input: seq<nat>): (s: string)
    ensures CodesOf(s) == Handled(input, 128, 0)
    decreases |input|
  {
    if input == [] then ""
    else
      var last := |input| - 1;
      var front := BasicText(input[..last]);
      if input[last] < 128 then
        assert CodesOf(front + [input[last] as char]) == CodesOf(front) + [input[last]];
        front + [input[last] as char]
      else front
  }

  lemma {:induction false} BasicIsAscii(input: seq<nat>)
    ensures forall i :: 0 <= i < |BasicText(input)| ==> BasicText(input)[i] as int < 128
    ensures |BasicText(input)| <= |input|
    ensures |BasicText(input)| == |input| <==> Ascii(input)
    decreases |input|
  {
    if input != [] {
      var last := |input| - 1;
      BasicIsAscii(input[..last]);
      assert Ascii(input) <==> Ascii(input[..last]) && input[last] < 128 by {
        assert forall i :: 0 <= i < last ==> input[i] == input[..last][i];
      }
    }
  }

  lemma {:induction false} BasicPrefix(input: seq<nat>, j: nat)
    requires j <= |input|
    ensures |BasicText(input[..j])| <= |BasicText(input)|
    ensures |BasicText(input[..j])| == |BasicText(input)| ==> BasicText(input[..j]) == BasicText(input)
    decreases |input|
  {
    if j == |input| {
      assert input[..j] == input;
    } else {
      BasicPrefix(input[..|input| - 1], j);
      assert input[..|input| - 1][..j] == input[..j];
    }
  }

  lemma BasicStep(input: seq<nat>, j: nat)
    requires j < |input|
    ensures BasicText(input[..j + 1]) ==
              BasicText(input[..j]) + (if input[j] < 128 then [input[j] as char] else [])
  {
    assert input[..j + 1][..j] == input[..j];
  }

  lemma {:induction false} NoDelimiter(s: string)
    requires '-' !in s
    ensures LastDelimiter(s) == |s|
    decreases |s|
  {
    if s != "" {
      NoDelimiter(s[1..]);
      assert s[0] in s;
    }
  }

  lemma {:induction false} DelimiterAfter(basic: string, extended: string)
    requires '-' !in extended
    ensures LastDelimiter(basic + "-" + extended) == |basic|
    decreases |basic|
  {
    var s := basic + "-" + extended;
    if basic == "" {
      NoDelimiter(extended);
      assert s[1..] == extended;
    } else {
      DelimiterAfter(basic[1..], extended);
      assert s[1..] == basic[1..] + "-" + extended;
    }
  }

  // The decoder starts with the ASCII code points.
  function Start(input: seq<nat>): State {
    State(128, 0, 72, Handled(input, 128, 0))
  }

  // Separator only after ASCII characters.
  function Joined(basic: string, extended: string): string {
    basic + (if |basic| > 0 then "-" else "") + extended
  }

  lemma JoinedDecodes(input: seq<nat>, extended: string, st: State)
    requires '-' !in extended && DecodeAll(extended, Start(input)) == Some(st)
    ensures Decode(Joined(BasicText(input), extended)) == Some(st.output)
  {
    hide DecodeAll, Handled;
    var basic := BasicText(input);
    var s := Joined(basic, extended);
    BasicIsAscii(input);
    if basic == "" {
      NoDelimiter(extended);
      assert s == extended && CodesOf("") == CodesOf(basic);
    } else {
      DelimiterAfter(basic, extended);
      assert s == basic + "-" + extended;
      assert s[..|basic|] == basic && s[|basic| + 1..] == extended;
    }
  }

  // The least code point at or above n.
  method NextLevelOf(input: seq<CodePoint>, n: uint32) returns (m: uint32, ghost k: nat)
    requires exists i :: 0 <= i < |input| && n <= input[i] < MAX32
    ensures k < |input| && input[k] == m && m < MAX32 && n <= m
    ensures forall i :: 0 <= i < |input| ==> input[i] < n || m <= input[i]
  {
    m := MAX32;
    k := |input|;
    var i := 0;
    while i < |input|
      invariant 0 <= i <= |input|
      invariant m < MAX32 ==> k < i && input[k] == m && n <= m
      invariant forall l :: 0 <= l < i ==> input[l] < n || m <= input[l]
    {
      var c := input[i];
      if c >= n {
        if c < m {
          m, k := c, i;
        }
      }
      i := i + 1;
    }
  }

  // x > ~delta / y: no overflow is left undetected, and none is reported without need.
  lemma GuardIsExact(x: nat, y: nat, delta: uint32)
    requires y > 0
    ensures x > (MAX32 - delta) / y <==> delta + x * y > MAX32
  {
    var room := MAX32 - delta;
    var q := room / y;
    assert room == q * y + room % y;
    if x <= q {
      Coding.MulMonotone(y, x, q);
    } else {
      Coding.MulMonotone(y, q + 1, x);
      assert y * (q + 1) == q * y + y;
    }
  }

  // ------------------------------------------------------------------ the label

  // The main loop: levels upwards until no code point is left.  Returns the text after the separator.
  method EncodeLevels(input: seq<CodePoint>, h: uint32, todo: uint32) returns (ok: bool, text: string)
    requires |input| < MAX32 && (forall i :: 0 <= i < |input| ==> input[i] != MAX32)
    requires h == |Handled(input, 128, 0)| && todo == |input| - h
    ensures ok ==> '-' !in text && exists st :: DecodeAll(text, Start(input)) == Some(st) && st.output == input
    ensures ok <==> !TooFar(input)
  {
    var v := Vars(h, todo, 0, 72, true, "");
    var n: uint32 := 128;
    ghost var st0 := Start(input);
    ghost var st := st0;
    StartSynced(input, v);
    TrackedStart(input, st);
    hide Synced, Tracked, TooFar, Start, Handled, DecodeAll;
    while v.todo > 0
      invariant 128 <= n <= 0x110000 && Synced(input, v, n, 0, st0, st) && Tracked(input, n, 0, st)
      decreases v.todo
    {
      ok, v, n, st := EncodeLevel(input, v, n, st0, st);
      if !ok {
        return false, "";
      }
    }
    AllDone(input, v, n, st0, st);
    NeverTooFar(input, v, n, st0, st);
    return true, v.text;
  }

  // One round of the main loop: the next level that occurs in the label.
  method EncodeLevel(input: seq<CodePoint>, v0: Vars, n0: uint32, ghost st0: State, ghost at: State)
    returns (ok: bool, v: Vars, n: uint32, ghost st: State)
    requires |input| < MAX32 && forall i :: 0 <= i < |input| ==> input[i] != MAX32
    requires Synced(input, v0, n0, 0, st0, at) && Tracked(input, n0, 0, at) && v0.todo > 0 && 128 <= n0
    ensures ok ==> Synced(input, v, n, 0, st0, st) && Tracked(input, n, 0, st)
    ensures ok ==> 128 <= n <= 0x110000 && v.todo < v0.todo
    ensures !ok ==> TooFar(input)
  {
    hide Synced, Tracked, TooFar;
    v, st, n := v0, at, n0;
    SomeLeft(input, v, n, st0, st);
    var m, k := NextLevelOf(input, n);
    ok, v := Raise(input, v, n, m, st0, st, k);
    if !ok {
      return;
    }
    n := m;
    ok, v, st := Pass(input, v, n, st0, st, k);
    if !ok {
      return;
    }
    NextLevel(input, v, n, st0, st);
    TrackedFrame(input, n, |input|, n + 1, 0, st);
    v := v.(delta := v.delta + 1);
    n := n + 1;
  }

  // Moves the distance up to level m, unless it overflows.
  method Raise(input: seq<CodePoint>, v: Vars, n: uint32, m: uint32, ghost st0: State, ghost st: State,
               ghost k: nat)
    returns (ok: bool, w: Vars)
    requires Synced(input, v, n, 0, st0, st) && Tracked(input, n, 0, st)
    requires 128 <= n <= m <= 0x10ffff && v.h + 1 <= MAX32
    requires forall k :: 0 <= k < |input| ==> input[k] < n || m <= input[k]
    requires k < |input| && input[k] == m
    ensures ok ==> Synced(input, w, m, 0, st0, st) && Tracked(input, m, 0, st) && w.todo == v.todo
    ensures !ok ==> TooFar(input)
  {
    hide Synced, Tracked, TooFar, Handled, Place, DecodeAll;
    RaiseLevel(input, v, n, m, st0, st);
    var x: uint32 := m - n;
    var y: uint32 := v.h + 1;
    GuardIsExact(x, y, v.delta);
    TrackedFrameAt(input, n, m, st);
    if x > (MAX32 - v.delta) / y {
      RaiseOverflow(input, v, n, m, k, st0, st);
      return false, v;
    }
    return true, v.(delta := v.delta + x * y);
  }

  lemma TrackedFrameAt(input: seq<nat>, n: nat, m: nat, st: State)
    requires Tracked(input, n, 0, st) && n <= m && forall k :: 0 <= k < |input| ==> input[k] < n || m <= input[k]
    ensures Tracked(input, m, 0, st)
  {
    hide Tracked;
    TrackedFrame(input, n, 0, m, 0, st);
  }

  lemma StartSynced(input: seq<nat>, v: Vars)
    requires v.h == |Handled(input, 128, 0)| && v.todo == |input| - v.h
    requires v.delta == 0 && v.bias == 72 && v.first && v.text == ""
    ensures Synced(input, v, 128, 0, Start(input), Start(input))
  {
    assert input[..0] == [];
  }

  lemma SomeLeft(input: seq<CodePoint>, v: Vars, n: nat, st0: State, st: State)
    requires Synced(input, v, n, 0, st0, st) && v.todo > 0 && |input| < MAX32
    requires forall i :: 0 <= i < |input| ==> input[i] != MAX32
    ensures v.h + 1 <= MAX32
    ensures exists i :: 0 <= i < |input| && n <= input[i] < MAX32
  {
    AllHandled(input, n, 0);
    var k :| 0 <= k < |input| && input[k] >= n;
    assert input[k] != MAX32;
  }

  lemma AllDone(input: seq<nat>, v: Vars, n: nat, st0: State, st: State)
    requires Synced(input, v, n, 0, st0, st) && v.todo == 0
    ensures DecodeAll(v.text, st0) == Some(st) && st.output == input && '-' !in v.text
  {
    AllHandled(input, n, 0);
  }

  /** The encoder of one label.  Unless the label holds bytes that are not UTF-8 or a distance overflows 32 bits,
      the text is the label itself when it is ASCII, and otherwise xn-- and text that decodes back to the label.
      It reports an overflow exactly when a distance of the label, in unbounded arithmetic, does not fit.
   */
  method ToAsciiLabel(input: seq<CodePoint>) returns (r: Outcome)
    requires |input| < MAX32
    ensures r.EInval? <==> MAX32 in input
    ensures r.Written? && Ascii(input) ==> CodesOf(r.text) == input
    ensures r.Written? && !Ascii(input) ==> |r.text| >= 4 && r.text[..4] == "xn--" && Decode(r.text[4..]) == Some(input)
    ensures r.E2Big? <==> MAX32 !in input && TooFar(input)
    ensures r.E2Big? ==> |input| > 3855
  {
    hide DecodeAll, Decode, Handled, BasicText, TooFar, Distance;
    if MAX32 !in input && |input| <= 3855 {
      assert forall l :: 0 <= l < |input| ==> input[l] in input;
      ShortLabelsFit(input);
    }
    var valid, h, todo := CountPoints(input);
    if !valid {
      return EInval;
    }
    var prefix := if todo > 0 then "xn--" else "";
    var basic := BasicChars(input, h);
    BasicIsAscii(input);
    if todo == 0 {
      AllHandled(input, 128, 0);
      AsciiFits(input);
      assert prefix + basic == basic;
      return Written(prefix + basic);
    }

    // Without ASCII characters there is no separator.
    var separator := if h > 0 then "-" else "";
    var ok, extended := EncodeLevels(input, h, todo);
    if !ok {
      return E2Big;
    }
    ghost var st :| DecodeAll(extended, Start(input)) == Some(st) && st.output == input;
    JoinedDecodes(input, extended, st);
    var text := prefix + basic + separator + extended;
    assert text[4..] == Joined(basic, extended);
    return Written(text);
  }

  lemma AsciiFits(input: seq<nat>)
    requires Ascii(input)
    ensures !TooFar(input)
  {
  }

  // Counts the ASCII and the other code points.
  method CountPoints(input: seq<CodePoint>) returns (valid: bool, h: uint32, todo: uint32)
    requires |input| < MAX32
    ensures valid <==> MAX32 !in input
    ensures valid ==> h == |BasicText(input)| && h + todo == |input|
  {
    h, todo := 0, 0;
    var i := 0;
    while i < |input|
      invariant 0 <= i <= |input| && h + todo == i
      invariant h == |BasicText(input[..i])|
      invariant forall l :: 0 <= l < i ==> input[l] != MAX32
    {
      BasicStep(input, i);
      var c := input[i];
      if c < 128 {
        h := h + 1;
      } else if c == MAX32 {
        return false, h, todo;
      } else {
        todo := todo + 1;
      }
      i := i + 1;
    }
    assert input[..i] == input;
    return true, h, todo;
  }

  // Copies the h ASCII characters of the label, and stops after the last one.
  method BasicChars(input: seq<CodePoint>, h: uint32) returns (basic: string)
    requires h == |BasicText(input)| && |input| < MAX32
    ensures basic == BasicText(input)
  {
    basic := "";
    var x: uint32, i := 0, 0;
    while i < |input|
      invariant 0 <= i <= |input| && basic == BasicText(input[..i]) && x == |basic|
    {
      BasicStep(input, i);
      BasicIsAscii(input[..i + 1]);
      var c := input[i];
      i := i + 1;
      if c > 127 {
        continue;
      }
      basic := basic + [c as char];
      x := x + 1;
      if x == h {
        // The rest of the label has none.
        BasicPrefix(input, i);
        return;
      }
    }
    assert input[..i] == input;
  }
}
