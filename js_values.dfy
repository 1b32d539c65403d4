/** The JavaScript values that reach the transaction handlers, and the two
    pieces of JavaScript semantics the application leans on: truthiness
    (ECMAScript ToBoolean, section 7.1.2 of ECMAScript 2023) and
    `String.prototype.toLowerCase`, restricted to ASCII letters. */
module JsValues {

  datatype Option<+T> = None | Some(value: T)

  /** A JavaScript number. Doubles are modelled as exact reals; NaN and the
      two infinities are kept apart because NaN is falsy while the infinities
      are truthy, and `JSON.stringify` writes all three as `null`. */
  datatype Number = Finite(value: real) | NaN | Infinite(negative: bool)

  /** A JavaScript value as `JSON.parse` or a client builds it. `undefined`
      (an absent property) is `None` of `Option<JsValue>`. Object members keep
      their insertion order, which is the order `JSON.stringify` writes. */
  datatype JsValue =
    | Null
    | Bool(b: bool)
    | Num(n: Number)
    | Str(s: string)
    | Arr(elems: seq<JsValue>)
    | Obj(members: seq<Member>)

  datatype Member = Member(key: string, value: JsValue)

  /** ECMAScript ToBoolean of a possibly absent value: `undefined`, `null`,
      `false`, `+0`/`-0`, `NaN` and the empty string are false, everything
      else (including every array and object, empty or not) is true. */
  predicate ToBoolean(v: Option<JsValue>) {
    match v
    case None => false
    case Some(x) =>
      match x
      case Null => false
      case Bool(b) => b
      case Num(n) => n.Infinite? || (n.Finite? && n.value != 0.0)
      case Str(s) => s != ""
      case Arr(_) => true
      case Obj(_) => true
  }

  /** The six falsy forms, listed. */
  predicate IsFalsyForm(v: Option<JsValue>) {
    || v == None
    || v == Some(Null)
    || v == Some(Bool(false))
    || v == Some(Num(Finite(0.0)))
    || v == Some(Num(NaN))
    || v == Some(Str(""))
  }

  /** ToBoolean is false on exactly the six falsy forms. */
  lemma FalsyIffListedForm(v: Option<JsValue>)
    ensures !ToBoolean(v) <==> IsFalsyForm(v)
  {
    if v.Some? && v.value.Num? && v.value.n.Finite? && v.value.n.value == 0.0 {
      assert v == Some(Num(Finite(0.0)));
    }
  }

  /** `toLowerCase` on one character, for the ASCII range only. */
  function LowerChar(c: char): (l: char)
    ensures 'A' <= c <= 'Z' ==> 'a' <= l <= 'z' && l as int - c as int == 32
    ensures !('A' <= c <= 'Z') ==> l == c
  {
    if 'A' <= c <= 'Z' then (c as int + 32) as char else c
  }

  /** `toLowerCase` on a string, character by character: every ASCII capital
      becomes its lower-case letter, every other character is kept, and no
      capital remains. */
  function Lower(s: string): (r: string)
    ensures |r| == |s|
    ensures forall i :: 0 <= i < |s| && 'A' <= s[i] <= 'Z' ==> r[i] as int == s[i] as int + 32
    ensures forall i :: 0 <= i < |s| && !('A' <= s[i] <= 'Z') ==> r[i] == s[i]
    ensures forall i :: 0 <= i < |r| ==> !('A' <= r[i] <= 'Z')
  {
    seq(|s|, i requires 0 <= i < |s| => LowerChar(s[i]))
  }

  /** A string lowers to an all-lower-case ASCII word `w` exactly when each of
      its characters is the letter of `w` in either case. */
  lemma {:induction false} LowerEqualsIff(s: string, w: string)
    requires forall i :: 0 <= i < |w| ==> 'a' <= w[i] <= 'z'
    ensures Lower(s) == w <==>
      |s| == |w| && forall i :: 0 <= i < |s| ==> s[i] == w[i] || s[i] as int == w[i] as int - 32
  {
    if Lower(s) == w {
      forall i | 0 <= i < |s| ensures s[i] == w[i] || s[i] as int == w[i] as int - 32 {
        assert Lower(s)[i] == w[i];
      }
    }
    if |s| == |w| && forall i :: 0 <= i < |s| ==> s[i] == w[i] || s[i] as int == w[i] as int - 32 {
      forall i | 0 <= i < |s| ensures Lower(s)[i] == w[i] {
        if s[i] != w[i] {
          assert 'A' <= s[i] <= 'Z';
        }
      }
    }
  }
}
