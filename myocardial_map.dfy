/** The myocardial map of the new-patient page: each clickable segment carries a data-state
    attribute that cycles 0 -> 1 -> 2 -> 3 -> 0 on every click and is mirrored into the hidden
    form input the view reads as segment_<n>. Numbers follow JavaScript: parseInt, the
    truncating remainder, and String() of the result; NaN is a value of its own. */
module MyocardialMap {
  import opened Wrappers
  import PyText

  /** A JavaScript number as far as this script uses one: an integer or NaN. */
  datatype JsNumber = NaN | Num(n: int)

  // ------------------------------------------------------------------- parseInt

  /** The characters String.prototype.trim and parseInt skip: ECMA-262's StrWhiteSpaceChar
      (its WhiteSpace and LineTerminator productions). */
  predicate IsJsSpace(c: char) {
    || c == '\t' || c == '\n' || c == '\U{000B}' || c == '\U{000C}' || c == '\r' || c == ' '
    || c == '\U{00A0}' || c == '\U{1680}' || ('\U{2000}' <= c <= '\U{200A}') || c == '\U{2028}' || c == '\U{2029}'
    || c == '\U{202F}' || c == '\U{205F}' || c == '\U{3000}' || c == '\U{FEFF}'
  }

  function TrimStart(s: string): string {
    if s != [] && IsJsSpace(s[0]) then TrimStart(s[1..]) else s
  }

  /** The value of a digit in radixes up to 36; 36 for any other character. */
  function CharValue(c: char): (v: nat)
    ensures v <= 36
  {
    if '0' <= c <= '9' then c as int - '0' as int
    else if 'a' <= c <= 'z' then c as int - 'a' as int + 10
    else if 'A' <= c <= 'Z' then c as int - 'A' as int + 10
    else 36
  }

  predicate IsRadixDigit(c: char, radix: nat) {
    CharValue(c) < radix
  }

  /** The length of the longest prefix of radix digits. */
  function DigitPrefix(s: string, radix: nat): (k: nat)
    ensures k <= |s|
    ensures forall i :: 0 <= i < k ==> IsRadixDigit(s[i], radix)
  {
    if s != [] && IsRadixDigit(s[0], radix) then 1 + DigitPrefix(s[1..], radix) else 0
  }

  /** The value of a run of radix digits, most significant first. */
  function DigitsValue(s: string, radix: nat): nat
    requires forall i :: 0 <= i < |s| ==> IsRadixDigit(s[i], radix)
  {
    if s == [] then 0
    else
      var init := s[..|s| - 1];
      assert forall i :: 0 <= i < |init| ==> init[i] == s[i];
      Shift(DigitsValue(init, radix), radix) + CharValue(s[|s| - 1])
  }

  /** v * radix: one more digit position. */
  function Shift(v: nat, radix: nat): nat {
    v * radix
  }

  /** The number after the sign: a "0x" or "0X" prefix selects radix 16, then the longest run
      of digits counts; None when that run is empty. */
  function UnsignedPart(u: string): Option<nat> {
    if |u| >= 2 && u[0] == '0' && (u[1] == 'x' || u[1] == 'X') then DigitRun(u[2..], 16) else DigitRun(u, 10)
  }

  /** The value of the longest prefix of radix digits, or None when it is empty. */
  function DigitRun(digits: string, radix: nat): Option<nat> {
    var k := DigitPrefix(digits, radix);
    if k == 0 then None else Some(DigitsValue(digits[..k], radix))
  }

  /** parseInt(s) with no radix argument, ECMA-262 section 21.1.2.13: leading white space, an
      optional sign, then the unsigned part; NaN when it has no digits. */
  function JsParseInt(s: string): JsNumber {
    var t := TrimStart(s);
    var negative := |t| > 0 && t[0] == '-';
    var unsigned := if |t| > 0 && (t[0] == '-' || t[0] == '+') then t[1..] else t;
    match UnsignedPart(unsigned)
    case None => NaN
    case Some(v) => Num(if negative then -(v as int) else v)
  }

  lemma {:induction false} DigitsValueOfNatToString(n: nat)
    ensures forall i :: 0 <= i < |PyText.NatToString(n)| ==> IsRadixDigit(PyText.NatToString(n)[i], 10)
    ensures DigitsValue(PyText.NatToString(n), 10) == n
  {
    var s := PyText.NatToString(n);
    if n >= 10 {
      DigitsValueOfNatToString(n / 10);
      assert s[..|s| - 1] == PyText.NatToString(n / 10);
    }
  }

  lemma {:induction false} DigitPrefixOfDigits(s: string, rest: string, radix: nat)
    requires forall i :: 0 <= i < |s| ==> IsRadixDigit(s[i], radix)
    requires rest == [] || !IsRadixDigit(rest[0], radix)
    ensures DigitPrefix(s + rest, radix) == |s|
  {
    if s == [] {
      assert s + rest == rest;
    } else {
      assert (s + rest)[0] == s[0];
      assert (s + rest)[1..] == s[1..] + rest;
      DigitPrefixOfDigits(s[1..], rest, radix);
    }
  }

  /** The unsigned part of the decimal text of m, followed by text that does not extend it. */
  lemma UnsignedPartOfNat(m: nat, post: string)
    requires post == [] || (!IsRadixDigit(post[0], 10) && post[0] != 'x' && post[0] != 'X')
    ensures UnsignedPart(PyText.NatToString(m) + post) == Some(m)
  {
    var digits := PyText.NatToString(m);
    var u := digits + post;
    DigitsValueOfNatToString(m);
    DigitPrefixOfDigits(digits, post, 10);
    if |u| >= 2 && u[0] == '0' {
      assert u[0] == digits[0];
      assert |digits| == 1;
      assert u[1] == post[0];
    }
    assert u[..|digits|] == digits;
  }

  lemma {:induction false} TrimStartOfSpaces(pre: string, t: string)
    requires forall i :: 0 <= i < |pre| ==> IsJsSpace(pre[i])
    requires t == [] || !IsJsSpace(t[0])
    ensures TrimStart(pre + t) == t
    decreases |pre|
  {
    if pre != [] {
      assert (pre + t)[0] == pre[0] && (pre + t)[1..] == pre[1..] + t;
      TrimStartOfSpaces(pre[1..], t);
    } else {
      assert pre + t == t;
    }
  }

  /** parseInt reads back what String() wrote for an integer, with any white space before it and
      anything after it that does not start with a digit (or with an x, which would make "0" a
      hexadecimal prefix). */
  lemma JsParseIntOfString(pre: string, n: int, post: string)
    requires forall i :: 0 <= i < |pre| ==> IsJsSpace(pre[i])
    requires post == [] || (!IsRadixDigit(post[0], 10) && post[0] != 'x' && post[0] != 'X')
    ensures JsParseInt(pre + PyText.IntToString(n) + post) == Num(n)
  {
    var m: nat := if n < 0 then -n else n;
    var digits := PyText.NatToString(m);
    UnsignedPartOfNat(m, post);
    var body := PyText.IntToString(n) + post;
    assert pre + PyText.IntToString(n) + post == pre + body;
    TrimStartOfSpaces(pre, body);
    var t := TrimStart(pre + body);
    assert t == body;
    if n < 0 {
      assert body == "-" + (digits + post);
      assert t[0] == '-' && t[1..] == digits + post;
      assert UnsignedPart(t[1..]) == Some(m);
    } else {
      assert body == digits + post;
      assert t[0] == digits[0] && PyText.IsDigit(t[0]);
      assert UnsignedPart(t) == Some(m);
    }
  }

  // ----------------------------------------------------------------- the cycle

  /** JavaScript's a % 4: the sign of the result follows a. */
  function JsRem4(a: int): (r: int)
    ensures -4 < r < 4
    ensures a >= 0 ==> r == a % 4
    ensures a <= 0 ==> r <= 0
  {
    if a >= 0 then a % 4 else -((-a) % 4)
  }

  /** String(v), also the text setAttribute and an input's value setter store. */
  function JsString(v: JsNumber): string {
    match v
    case NaN => "NaN"
    case Num(n) => PyText.IntToString(n)
  }

  /** parseInt(this.getAttribute("data-state") || 0): an absent or empty attribute is 0. */
  function CurrentState(attr: Option<string>): JsNumber {
    if attr.None? || attr.value == "" then Num(0) else JsParseInt(attr.value)
  }

  /** (currentState + 1) % 4; NaN stays NaN. */
  function NextState(cur: JsNumber): JsNumber {
    match cur
    case NaN => NaN
    case Num(n) => Num(JsRem4(n + 1))
  }

  /** The data-state text one click writes. */
  function ClickText(attr: Option<string>): string {
    JsString(NextState(CurrentState(attr)))
  }

  /** A click on a state that parsed to -1 or more gives one of 0..3; from a lower value it gives
      a value above -4, and it never turns NaN into a number or a number into NaN. */
  lemma NextStateInRange(cur: JsNumber)
    ensures NextState(cur).NaN? <==> cur.NaN?
    ensures cur.Num? ==> -3 <= NextState(cur).n <= 3
    ensures cur.Num? && cur.n >= -1 ==> 0 <= NextState(cur).n <= 3
  {
  }

  /** The texts "0".."3" that String() gives for the four states. */
  predicate IsStateText(s: string) {
    exists n :: 0 <= n <= 3 && s == PyText.IntToString(n)
  }

  /** A click on the text String() gave for n writes the text of (n + 1) % 4. */
  lemma ClickOfString(n: int)
    ensures ClickText(Some(PyText.IntToString(n))) == PyText.IntToString(JsRem4(n + 1))
  {
    JsParseIntOfString("", n, "");
    assert "" + PyText.IntToString(n) + "" == PyText.IntToString(n);
    assert PyText.IntToString(n) != "";
  }

  /** A click on a state text, or on an absent or empty attribute, writes a state text, and a
      different one. */
  lemma ClickTextInRange(attr: Option<string>)
    requires attr.None? || attr.value == "" || IsStateText(attr.value)
    ensures IsStateText(ClickText(attr))
    ensures ClickText(Some(ClickText(attr))) != ClickText(attr)
  {
    var n: int := 0;
    if attr.Some? && attr.value != "" {
      n :| 0 <= n <= 3 && attr.value == PyText.IntToString(n);
    }
    var m := JsRem4(n + 1);
    var k := JsRem4(m + 1);
    assert 0 <= m <= 3 && 0 <= k <= 3 && k != m;
    assert PyText.IntToString(k) != PyText.IntToString(m) by {
      assert PyText.IntToString(k) == [PyText.DigitChar(k)] && PyText.IntToString(m) == [PyText.DigitChar(m)];
      assert PyText.DigitOf(PyText.DigitChar(k)) == k;
    }
    if attr.Some? && attr.value != "" {
      ClickOfString(n);
    }
    assert ClickText(attr) == PyText.IntToString(m);
    ClickOfString(m);
  }

  /** Four clicks on a segment in state 0..3 bring it back to the text it had. */
  lemma FourClicksRestore(n: int)
    requires 0 <= n <= 3
    ensures var s := PyText.IntToString(n);
      ClickText(Some(ClickText(Some(ClickText(Some(ClickText(Some(s)))))))) == s
  {
    var a := JsRem4(n + 1);
    var b := JsRem4(a + 1);
    var c := JsRem4(b + 1);
    assert JsRem4(c + 1) == n by { StepCycle(n); }
    var s0 := PyText.IntToString(n);
    var s1 := ClickText(Some(s0));
    assert s1 == PyText.IntToString(a) by { ClickOfString(n); }
    var s2 := ClickText(Some(s1));
    assert s2 == PyText.IntToString(b) by { ClickOfString(a); }
    var s3 := ClickText(Some(s2));
    assert s3 == PyText.IntToString(c) by { ClickOfString(b); }
    var s4 := ClickText(Some(s3));
    assert s4 == PyText.IntToString(JsRem4(c + 1)) by { ClickOfString(c); }
  }

  /** Four steps of (x + 1) % 4 are the identity on 0..3. */
  lemma StepCycle(n: int)
    requires 0 <= n <= 3
    ensures JsRem4(JsRem4(JsRem4(JsRem4(n + 1) + 1) + 1) + 1) == n
  {
    assert JsRem4(1) == 1 && JsRem4(2) == 2 && JsRem4(3) == 3 && JsRem4(4) == 0;
  }

  /** Once a segment holds text parseInt cannot read, every click writes "NaN", and "NaN" stays. */
  lemma NaNIsFixed(s: string)
    requires s != "" && JsParseInt(s).NaN?
    ensures ClickText(Some(s)) == "NaN"
    ensures JsParseInt("NaN").NaN? && ClickText(Some("NaN")) == "NaN"
  {
    assert TrimStart("NaN") == "NaN";
    assert DigitPrefix("NaN", 10) == 0;
  }

  /** A segment without data-state, or with an empty one, is read as state 0: its first click writes "1". */
  lemma MissingStateIsZero()
    ensures CurrentState(None) == Num(0) && CurrentState(Some("")) == Num(0)
    ensures ClickText(None) == PyText.IntToString(1)
  {
  }

  // ---------------------------------------------------------------- the page

  /** `input_segment_${segId}`: a segment without data-segment looks for "input_segment_null". */
  function InputId(segId: Option<string>): string {
    "input_segment_" + (if segId.None? then "null" else segId.value)
  }

  /** hiddenInput.value || "0" */
  function InitialText(value: string): (r: string)
    ensures r != ""
    ensures value != "" ==> r == value
  {
    if value == "" then "0" else value
  }

  /** The data-state attributes after the page-load handler: a segment whose hidden input exists
      takes the input's value, or "0" when it is empty; any other segment keeps its attribute. */
  function InitStates(segIds: seq<Option<string>>, states: seq<Option<string>>, inputs: map<string, string>): (r: seq<Option<string>>)
    requires |states| == |segIds|
    ensures |r| == |states|
    ensures forall k :: 0 <= k < |r| ==>
      r[k] == if InputId(segIds[k]) in inputs then Some(InitialText(inputs[InputId(segIds[k])])) else states[k]
  {
    seq(|states|, k requires 0 <= k < |states| =>
      if InputId(segIds[k]) in inputs then Some(InitialText(inputs[InputId(segIds[k])])) else states[k])
  }

  /** After the page-load handler every segment with a hidden input agrees with it, empty inputs
      aside, and its first click writes a state in 0..3 when the input held one. */
  lemma InitMirrorsInputs(segIds: seq<Option<string>>, states: seq<Option<string>>, inputs: map<string, string>, k: nat)
    requires |states| == |segIds| && k < |segIds| && InputId(segIds[k]) in inputs
    ensures var s := InitStates(segIds, states, inputs)[k];
      s.Some? && s.value != "" && (inputs[InputId(segIds[k])] != "" ==> s.value == inputs[InputId(segIds[k])])
    ensures var v := inputs[InputId(segIds[k])];
      v == "" || IsStateText(v) ==> IsStateText(ClickText(InitStates(segIds, states, inputs)[k]))
  {
    var s := InitStates(segIds, states, inputs)[k];
    var v := inputs[InputId(segIds[k])];
    if v == "" {
      assert s == Some("0") == Some(PyText.IntToString(0));
      ClickTextInRange(s);
    } else if IsStateText(v) {
      ClickTextInRange(s);
    }
  }

  /** The .segment elements of the page, their data-state attributes, and the value of every
      element with an id that getElementById can find. */
  class SegmentMap {
    const segIds: seq<Option<string>>
    var states: seq<Option<string>>
    var inputs: map<string, string>

    ghost predicate Valid()
      reads this
    {
      |states| == |segIds|
    }

    constructor (segIds: seq<Option<string>>, states: seq<Option<string>>, inputs: map<string, string>)
      requires |states| == |segIds|
      ensures Valid() && this.segIds == segIds && this.states == states && this.inputs == inputs
    {
      this.segIds := segIds;
      this.states := states;
      this.inputs := inputs;
    }

    /** The DOMContentLoaded handler's forEach: only the data-state attributes change. */
    method Init()
      requires Valid()
      modifies this
      ensures Valid() && states == InitStates(segIds, old(states), old(inputs)) && inputs == old(inputs)
    {
      ghost var target := InitStates(segIds, states, inputs);
      var k := 0;
      while k < |segIds|
        invariant 0 <= k <= |segIds| && |states| == |segIds| && inputs == old(inputs)
        invariant states[..k] == target[..k] && states[k..] == old(states)[k..]
      {
        var id := InputId(segIds[k]);
        if id in inputs {
          states := states[k := Some(InitialText(inputs[id]))];
        }
        assert states[..k + 1] == target[..k + 1] by {
          assert states[k] == target[k];
          assert states[..k] == target[..k];
        }
        k := k + 1;
      }
    }

    /** The click handler of segment k: its data-state and its hidden input, and nothing else,
        take the next state. */
    method Click(k: nat)
      requires Valid() && k < |segIds|
      modifies this
      ensures Valid()
      ensures states == old(states)[k := Some(ClickText(old(states[k])))]
      ensures inputs == if InputId(segIds[k]) in old(inputs) then old(inputs)[InputId(segIds[k]) := ClickText(old(states[k]))] else old(inputs)
      ensures InputId(segIds[k]) in inputs ==> Some(inputs[InputId(segIds[k])]) == states[k]
    {
      var current := CurrentState(states[k]);
      var next := NextState(current);
      states := states[k := Some(JsString(next))];
      var id := InputId(segIds[k]);
      if id in inputs {
        inputs := inputs[id := JsString(next)];
      }
    }
  }
}
