/**
 * The slice of JavaScript semantics that the request handlers depend on:
 * the values a parsed JSON body can hold, truthiness and `||`, and the
 * string operations `trim()` and `length`.
 */
module Js {

  /**
   * A property read from a parsed JSON request body. `Absent` is the
   * `undefined` that destructuring yields for a missing property; `Obj`
   * stands for any JSON object, whose members no handler inspects.
   * JSON numbers are decimals, hence `real`.
   */
  datatype JsonValue =
    | Absent
    | Null
    | Bool(b: bool)
    | Num(n: real)
    | Str(s: string)
    | Arr(items: seq<JsonValue>)
    | Obj

  /** JavaScript truthiness: `!v` is `!Truthy(v)`. */
  predicate Truthy(v: JsonValue) {
    match v
    case Absent => false
    case Null => false
    case Bool(b) => b
    case Num(n) => n != 0.0
    case Str(s) => s != ""
    case Arr(_) => true
    case Obj => true
  }

  /** The JavaScript expression `a || b`. */
  function Or(a: JsonValue, b: JsonValue): JsonValue {
    if Truthy(a) then a else b
  }

  /** `a || b` yields one of its operands, and a truthy one whenever either operand is truthy. */
  lemma OrPicksAnOperand(a: JsonValue, b: JsonValue)
    ensures Or(a, b) == a || Or(a, b) == b
    ensures Truthy(Or(a, b)) <==> Truthy(a) || Truthy(b)
    ensures !Truthy(a) ==> Or(a, b) == b
  {
  }

  /** `Array.isArray(v) && v.length > 0` */
  predicate IsNonEmptyArray(v: JsonValue) {
    v.Arr? && |v.items| > 0
  }

  /**
   * The code points that `String.prototype.trim` removes: the ECMAScript
   * WhiteSpace characters (tab, vertical tab, form feed, space, no-break
   * space, byte order mark and the Unicode space separators) and the
   * LineTerminator characters (line feed, carriage return, line and
   * paragraph separators).
   */
  const JsWhitespace: set<char> := {
      '\t', '\n', '\U{000B}', '\U{000C}', '\r', ' ', '\U{00A0}', '\U{1680}',
      '\U{2000}', '\U{2001}', '\U{2002}', '\U{2003}', '\U{2004}', '\U{2005}', '\U{2006}', '\U{2007}',
      '\U{2008}', '\U{2009}', '\U{200A}', '\U{2028}', '\U{2029}', '\U{202F}', '\U{205F}', '\U{3000}',
      '\U{FEFF}'
    }

  predicate IsJsWhitespace(c: char) {
    c in JsWhitespace
  }

  /** Every character of `s` is whitespace (in particular, `""` is blank). */
  predicate Blank(s: string) {
    forall i :: 0 <= i < |s| ==> IsJsWhitespace(s[i])
  }

  /** A non-blank string value: what `v && typeof v === 'string' && v.trim().length !== 0` accepts. */
  predicate IsText(v: JsonValue) {
    v.Str? && !Blank(v.s)
  }

  /** `s` without its leading whitespace. */
  function TrimStart(s: string): (r: string)
    ensures |r| <= |s|
    ensures Blank(s[..|s| - |r|])
    ensures r == [] || !IsJsWhitespace(r[0])
  {
    if s == [] || !IsJsWhitespace(s[0]) then s else TrimStart(s[1..])
  }

  /** What TrimStart keeps is a suffix of its argument. */
  lemma {:induction false} TrimStartIsSuffix(s: string)
    ensures TrimStart(s) == s[|s| - |TrimStart(s)|..]
  {
    if s != [] && IsJsWhitespace(s[0]) {
      TrimStartIsSuffix(s[1..]);
    }
  }

  /** `s` without its trailing whitespace. */
  function TrimEnd(s: string): (r: string)
    ensures |r| <= |s|
    ensures Blank(s[|r|..])
    ensures r == [] || !IsJsWhitespace(r[|r| - 1])
  {
    if s == [] || !IsJsWhitespace(s[|s| - 1]) then s else TrimEnd(s[..|s| - 1])
  }

  /** What TrimEnd keeps is a prefix of its argument. */
  lemma {:induction false} TrimEndIsPrefix(s: string)
    ensures TrimEnd(s) == s[..|TrimEnd(s)|]
  {
    if s != [] && IsJsWhitespace(s[|s| - 1]) {
      TrimEndIsPrefix(s[..|s| - 1]);
    }
  }

  /** `s.trim()`: neither end of the result is whitespace. */
  function Trim(s: string): (r: string)
    ensures |r| <= |s|
    ensures r == [] || (!IsJsWhitespace(r[0]) && !IsJsWhitespace(r[|r| - 1]))
  {
    TrimEndIsPrefix(TrimStart(s));
    TrimEnd(TrimStart(s))
  }

  /**
   * `s.trim()` is the middle of `s`: what is left once the whitespace
   * before it and the whitespace after it are removed.
   */
  lemma TrimKeepsMiddle(s: string)
    ensures var i := |s| - |TrimStart(s)|;
      && i + |Trim(s)| <= |s|
      && Trim(s) == s[i..i + |Trim(s)|]
      && Blank(s[..i])
      && Blank(s[i + |Trim(s)|..])
  {
    var t := TrimStart(s);
    var i := |s| - |t|;
    TrimStartIsSuffix(s);
    TrimEndIsPrefix(t);
    var r := Trim(s);
    assert t[|r|..] == s[i + |r|..];
    assert r == s[i..i + |r|];
  }

  /** `s.trim().length === 0` holds exactly of the blank strings. */
  lemma TrimEmptyIffBlank(s: string)
    ensures |Trim(s)| == 0 <==> Blank(s)
  {
    var t := TrimStart(s);
    TrimStartIsSuffix(s);
    TrimEndIsPrefix(t);
    if t != [] {
      // the first character kept by TrimStart is not whitespace
      assert !IsJsWhitespace(s[|s| - |t|]);
    }
    assert TrimEnd(t) == [] ==> Blank(t[0..]);
    assert t[0..] == t && s[..|s|] == s;
  }

  /**
   * `!v || typeof v !== 'string' || v.trim().length === 0`, the guard both
   * handlers put on a required string: it holds exactly when `v` is not a
   * non-blank string.
   */
  function MissingText(v: JsonValue): (r: bool)
    ensures r <==> !IsText(v)
  {
    !Truthy(v) || !v.Str? || (TrimEmptyIffBlank(v.s); |Trim(v.s)| == 0)
  }

  /** A string whose first character is not whitespace is non-blank. */
  lemma FirstCharMakesText(s: string)
    requires |s| > 0 && !IsJsWhitespace(s[0])
    ensures IsText(Str(s))
  {
  }

  /** The number of UTF-16 code units that encode `c`. */
  function CodeUnits(c: char): nat {
    if c as int > 0xFFFF then 2 else 1
  }

  /** JavaScript's `s.length`: the number of UTF-16 code units, between one and two per character. */
  function Utf16Length(s: string): (n: nat)
    ensures |s| <= n <= 2 * |s|
  {
    if s == [] then 0 else CodeUnits(s[0]) + Utf16Length(s[1..])
  }

  /** On text made of Basic Multilingual Plane characters only, `length` counts characters. */
  lemma {:induction false} Utf16LengthOfBmp(s: string)
    requires forall i :: 0 <= i < |s| ==> s[i] as int <= 0xFFFF
    ensures Utf16Length(s) == |s|
  {
    if s != [] {
      assert forall i :: 0 <= i < |s[1..]| ==> s[1..][i] == s[i + 1];
      Utf16LengthOfBmp(s[1..]);
    }
  }

  /** A single character counts two code units above U+FFFF (a surrogate pair) and one otherwise. */
  lemma Utf16LengthOfChar(c: char)
    ensures Utf16Length([c]) == (if c as int > 0xFFFF then 2 else 1)
  {
    assert [c][1..] == [];
  }

  /** `length` adds up over concatenation. */
  lemma {:induction false} Utf16LengthAppend(s: string, t: string)
    ensures Utf16Length(s + t) == Utf16Length(s) + Utf16Length(t)
  {
    if s == [] {
      assert s + t == t;
    } else {
      assert (s + t)[1..] == s[1..] + t;
      Utf16LengthAppend(s[1..], t);
    }
  }

  /** `length` is the number of characters plus one for each character above U+FFFF. */
  lemma {:induction false} Utf16LengthCountsAstral(s: string)
    ensures Utf16Length(s) == |s| + |set i | 0 <= i < |s| && s[i] as int > 0xFFFF|
  {
    if s != [] {
      var n := |s| - 1;
      var front := s[..n];
      Utf16LengthCountsAstral(front);
      assert s == front + [s[n]];
      Utf16LengthAppend(front, [s[n]]);
      Utf16LengthOfChar(s[n]);
      var before := set i | 0 <= i < |front| && front[i] as int > 0xFFFF;
      var whole := set i | 0 <= i < |s| && s[i] as int > 0xFFFF;
      assert before == set i | 0 <= i < n && s[i] as int > 0xFFFF;
      if s[n] as int > 0xFFFF {
        assert whole == before + {n};
      } else {
        assert whole == before;
      }
    }
  }
}
