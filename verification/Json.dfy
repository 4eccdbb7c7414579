/** The canonical JSON text an audit entry is hashed over: `json.dumps(value, sort_keys=True)`
    with Python's default separators and ASCII escaping, and the proof that distinct values
    never share a text. */
module Json {

  datatype Value =
    | Null
    | Bool(b: bool)
    | Int(n: int)
    | Str(s: string)
    | Arr(items: seq<Value>)
    | Obj(fields: map<string, Value>)

  // ---------- Characters ----------

  function HexDigit(d: nat): char
    requires d < 16
  {
    if d < 10 then (48 + d) as char else (87 + d) as char
  }

  /** `format(n, "04x")` for a 16-bit code unit. */
  function Hex4(n: nat): string
    requires n < 0x1_0000
  {
    [HexDigit(n / 16 / 16 / 16), HexDigit(n / 16 / 16 % 16), HexDigit(n / 16 % 16), HexDigit(n % 16)]
  }

  /** One character inside a JSON string; characters above the basic plane become a surrogate pair. */
  function EscapeChar(c: char): string
  {
    if c == '"' then "\\\""
    else if c == '\\' then "\\\\"
    else if c == '\n' then "\\n"
    else if c == '\r' then "\\r"
    else if c == '\t' then "\\t"
    else if c == '\U{8}' then "\\b"
    else if c == '\U{c}' then "\\f"
    else if ' ' <= c <= '~' then [c]
    else if c as int < 0x1_0000 then "\\u" + Hex4(c as int)
    else
      var v := c as int - 0x1_0000;
      "\\u" + Hex4(0xd800 + v / 0x400) + "\\u" + Hex4(0xdc00 + v % 0x400)
  }

  /** The rest of a string literal: escaped characters, the closing quote, then the text `r`. */
  function EscapeThen(s: string, r: string): string
  {
    if s == "" then ['"'] + r else EscapeChar(s[0]) + EscapeThen(s[1..], r)
  }

  // ---------- Numbers ----------

  predicate IsDigit(c: char) { '0' <= c <= '9' }

  function Digits(n: nat): (s: string)
    ensures |s| > 0 && forall i :: 0 <= i < |s| ==> IsDigit(s[i])
  {
    var d := [('0' as int + n % 10) as char];
    if n < 10 then d else Digits(n / 10) + d
  }

  function DecimalThen(n: int, r: string): string
  {
    if n < 0 then ['-'] + (Digits(-n) + r) else Digits(n) + r
  }

  // ---------- Sorted keys ----------

  /** Python orders strings by code point. */
  predicate Leq(a: string, b: string)
  {
    a == "" || (b != "" && (a[0] < b[0] || (a[0] == b[0] && Leq(a[1..], b[1..]))))
  }

  lemma {:induction false} LeqTotal(a: string, b: string)
    ensures Leq(a, b) || Leq(b, a)
    ensures Leq(a, b) && Leq(b, a) ==> a == b
  {
    if a != "" && b != "" && a[0] == b[0] {
      LeqTotal(a[1..], b[1..]);
      assert a == [a[0]] + a[1..] && b == [b[0]] + b[1..];
    }
  }

  lemma {:induction false} LeqTransitive(a: string, b: string, c: string)
    requires Leq(a, b) && Leq(b, c)
    ensures Leq(a, c)
  {
    if a != "" && a[0] == b[0] && b[0] == c[0] {
      LeqTransitive(a[1..], b[1..], c[1..]);
    }
  }

  predicate IsLeast(k: string, keys: set<string>)
  {
    k in keys && forall j :: j in keys ==> Leq(k, j)
  }

  lemma {:induction false} LeastExists(keys: set<string>)
    requires keys != {}
    ensures exists k :: IsLeast(k, keys)
    decreases keys
  {
    var x :| x in keys;
    LeqTotal(x, x);
    if keys != {x} {
      LeastExists(keys - {x});
      var y :| IsLeast(y, keys - {x});
      LeqTotal(x, y);
      var k := if Leq(x, y) then x else y;
      forall j | j in keys ensures Leq(k, j) {
        if j != x && k == x { LeqTransitive(x, y, j); }
      }
      assert IsLeast(k, keys);
    } else {
      assert IsLeast(x, keys);
    }
  }

  lemma LeastUnique(keys: set<string>)
    ensures forall j, k :: IsLeast(j, keys) && IsLeast(k, keys) ==> j == k
  {
    forall j, k | IsLeast(j, keys) && IsLeast(k, keys) ensures j == k { LeqTotal(j, k); }
  }

  predicate Sorted(ks: seq<string>)
  {
    forall i, j :: 0 <= i < j < |ks| ==> ks[i] != ks[j] && Leq(ks[i], ks[j])
  }

  function Least(keys: set<string>): (k: string)
    requires exists k :: k in keys && IsLeast(k, keys)
    ensures IsLeast(k, keys)
  {
    LeastUnique(keys);
    var k :| k in keys && IsLeast(k, keys);
    k
  }

  function SortedKeys(keys: set<string>): (ks: seq<string>)
    ensures forall k :: k in ks <==> k in keys
    ensures Sorted(ks)
    decreases keys
  {
    if keys == {} then []
    else
      LeastExists(keys);
      [Least(keys)] + SortedKeys(keys - {Least(keys)})
  }

  // ---------- The printer ----------

  /** The canonical text of a value. */
  function Dump(v: Value): string
  {
    DumpThen(v, "")
  }

  /** The text of `v` followed by the text `r`. */
  function DumpThen(v: Value, r: string): string
    decreases v, 1
  {
    match v
    case Null => "null" + r
    case Bool(b) => (if b then "true" else "false") + r
    case Int(n) => DecimalThen(n, r)
    case Str(s) => ['"'] + EscapeThen(s, r)
    case Arr(items) => ['['] + ItemsThen(items, r)
    case Obj(fields) => ['{'] + FieldsThen(v, SortedKeys(fields.Keys), r)
  }

  /** The items after the opening bracket, the closing bracket, then `r`. */
  function ItemsThen(items: seq<Value>, r: string): string
    decreases items, 2
  {
    if items == [] then [']'] + r
    else if |items| == 1 then DumpThen(items[0], [']'] + r)
    else DumpThen(items[0], ", " + ItemsThen(items[1..], r))
  }

  /** The members named by `keys` after the opening brace, the closing brace, then `r`. */
  function FieldsThen(v: Value, keys: seq<string>, r: string): string
    requires v.Obj? && forall k :: k in keys ==> k in v.fields
    decreases v, 0, |keys|
  {
    if keys == [] then ['}'] + r
    else
      var rest := if |keys| == 1 then ['}'] + r else ", " + FieldsThen(v, keys[1..], r);
      ['"'] + EscapeThen(keys[0], ": " + DumpThen(v.fields[keys[0]], rest))
  }

  // ---------- Reading a text back ----------

  function UnhexDigit(c: char): int
  {
    if c as int < 58 then c as int - 48 else c as int - 87
  }

  function Unhex4(a: char, b: char, c: char, d: char): int
  {
    16 * (16 * (16 * UnhexDigit(a) + UnhexDigit(b)) + UnhexDigit(c)) + UnhexDigit(d)
  }

  lemma Hex4RoundTrip(n: nat)
    requires n < 0x1_0000
    ensures Unhex4(Hex4(n)[0], Hex4(n)[1], Hex4(n)[2], Hex4(n)[3]) == n
  {
    var q := n / 16;
    assert n == 16 * q + n % 16 && q == 16 * (q / 16) + q % 16 && q / 16 == 16 * (q / 16 / 16) + q / 16 % 16;
  }

  /** The code point of the first character of an escaped text and how many characters spell it. */
  function ReadChar(s: string): (int, nat)
    requires s != ""
  {
    if |s| < 2 || s[0] != '\\' then (s[0] as int, 1)
    else if s[1] == 'n' then (10, 2)
    else if s[1] == 'r' then (13, 2)
    else if s[1] == 't' then (9, 2)
    else if s[1] == 'b' then (8, 2)
    else if s[1] == 'f' then (12, 2)
    else if s[1] != 'u' || |s| < 6 then (s[1] as int, 2)
    else
      var h := Unhex4(s[2], s[3], s[4], s[5]);
      if 0xd800 <= h < 0xdc00 && |s| >= 12 then
        (0x1_0000 + 0x400 * (h - 0xd800) + (Unhex4(s[8], s[9], s[10], s[11]) - 0xdc00), 12)
      else (h, 6)
  }

  /** Two escapes that spell a surrogate pair read as one character. */
  lemma ReadSurrogates(s: string, hi: nat, lo: nat)
    requires |s| >= 12 && s[0] == '\\' && s[1] == 'u' && 0xd800 <= hi < 0xdc00 && lo < 0x1_0000
    requires s[2..6] == Hex4(hi) && s[8..12] == Hex4(lo)
    ensures ReadChar(s) == (0x1_0000 + 0x400 * (hi - 0xd800) + (lo - 0xdc00), 12)
  {
    Hex4RoundTrip(hi);
    Hex4RoundTrip(lo);
    assert s[2] == s[2..6][0] && s[3] == s[2..6][1] && s[4] == s[2..6][2] && s[5] == s[2..6][3];
    assert s[8] == s[8..12][0] && s[9] == s[8..12][1] && s[10] == s[8..12][2] && s[11] == s[8..12][3];
  }

  lemma ReadPair(c: char, r: string)
    requires c as int >= 0x1_0000
    ensures ReadChar(EscapeChar(c) + r) == (c as int, |EscapeChar(c)|)
  {
    var v, s := c as int - 0x1_0000, EscapeChar(c) + r;
    var hi, lo := 0xd800 + v / 0x400, 0xdc00 + v % 0x400;
    assert s == "\\u" + Hex4(hi) + "\\u" + Hex4(lo) + r;
    assert s[2..6] == Hex4(hi) && s[8..12] == Hex4(lo);
    ReadSurrogates(s, hi, lo);
  }

  lemma ReadCharRoundTrip(c: char, r: string)
    ensures ReadChar(EscapeChar(c) + r) == (c as int, |EscapeChar(c)|)
  {
    var n, e, s := c as int, EscapeChar(c), EscapeChar(c) + r;
    assert forall i :: 0 <= i < |e| ==> s[i] == e[i];
    if |e| == 6 {
      Hex4RoundTrip(n);
      assert e[2..] == Hex4(n);
    } else if n >= 0x1_0000 {
      ReadPair(c, r);
    }
  }

  lemma Cancel(p: string, r: string, q: string)
    requires p + r == p + q
    ensures r == q
  {
    assert r == (p + r)[|p|..] && q == (p + q)[|p|..];
  }

  /** No escape is a proper prefix of another, so the first character can be read back. */
  lemma EscapeCharDecodes(c: char, r: string, d: char, q: string)
    requires EscapeChar(c) + r == EscapeChar(d) + q
    ensures c == d && r == q
  {
    ReadCharRoundTrip(c, r);
    ReadCharRoundTrip(d, q);
    Cancel(EscapeChar(c), r, q);
  }

  lemma EscapeCharHead(c: char, r: string)
    ensures (EscapeChar(c) + r)[0] != '"'
  {
  }

  lemma {:induction false} EscapeDecodes(s: string, r: string, t: string, q: string)
    requires EscapeThen(s, r) == EscapeThen(t, q)
    ensures s == t && r == q
  {
    if s == "" && t == "" {
      Cancel(['"'], r, q);
    } else if s == "" {
      EscapeCharHead(t[0], EscapeThen(t[1..], q));
    } else if t == "" {
      EscapeCharHead(s[0], EscapeThen(s[1..], r));
    } else {
      EscapeCharDecodes(s[0], EscapeThen(s[1..], r), t[0], EscapeThen(t[1..], q));
      EscapeDecodes(s[1..], r, t[1..], q);
      assert s == [s[0]] + s[1..] && t == [t[0]] + t[1..];
    }
  }

  function Numeral(s: string): int
  {
    if s == "" then 0 else 10 * Numeral(s[..|s| - 1]) + (s[|s| - 1] as int - 48)
  }

  lemma {:induction false} DigitsRoundTrip(n: nat)
    ensures Numeral(Digits(n)) == n
  {
    var d := Digits(n);
    if n < 10 {
      assert d[..0] == "";
    } else {
      DigitsRoundTrip(n / 10);
      assert d[..|d| - 1] == Digits(n / 10);
    }
  }

  /** What can follow a value: the end of the text, a comma or a closing bracket. */
  predicate Delimited(r: string)
  {
    r == "" || r[0] == ',' || r[0] == ']' || r[0] == '}'
  }

  function DigitSpan(s: string): nat
  {
    if s == "" || !IsDigit(s[0]) then 0 else 1 + DigitSpan(s[1..])
  }

  lemma {:induction false} SpanOf(d: string, r: string)
    requires (forall i :: 0 <= i < |d| ==> IsDigit(d[i])) && Delimited(r)
    ensures DigitSpan(d + r) == |d|
  {
    if d == "" {
      assert d + r == r;
    } else {
      assert (d + r)[1..] == d[1..] + r;
      SpanOf(d[1..], r);
    }
  }

  lemma DigitsDecode(m: nat, r: string, n: nat, q: string)
    requires Digits(m) + r == Digits(n) + q && Delimited(r) && Delimited(q)
    ensures m == n && r == q
  {
    SpanOf(Digits(m), r);
    SpanOf(Digits(n), q);
    assert Digits(m) == (Digits(m) + r)[..|Digits(m)|] && Digits(n) == (Digits(n) + q)[..|Digits(n)|];
    DigitsRoundTrip(m);
    DigitsRoundTrip(n);
    Cancel(Digits(m), r, q);
  }

  lemma DecimalHead(n: int, r: string)
    ensures DecimalThen(n, r)[0] == '-' <==> n < 0
  {
    if n >= 0 { assert DecimalThen(n, r)[0] == Digits(n)[0]; }
  }

  lemma DecimalDecodes(m: int, r: string, n: int, q: string)
    requires DecimalThen(m, r) == DecimalThen(n, q) && Delimited(r) && Delimited(q)
    ensures m == n && r == q
  {
    DecimalHead(m, r);
    DecimalHead(n, q);
    if m < 0 {
      Cancel(['-'], Digits(-m) + r, Digits(-n) + q);
      DigitsDecode(-m, r, -n, q);
    } else {
      DigitsDecode(m, r, n, q);
    }
  }

  /** Which kind of value a text starts. */
  function Kind(c: char): int
  {
    if c == 'n' then 0 else if c == 't' then 1 else if c == 'f' then 2 else if c == '-' || IsDigit(c) then 3
    else if c == '"' then 4 else if c == '[' then 5 else if c == '{' then 6 else 7
  }

  function KindOf(v: Value): int
  {
    match v
    case Null => 0
    case Bool(b) => if b then 1 else 2
    case Int(_) => 3
    case Str(_) => 4
    case Arr(_) => 5
    case Obj(_) => 6
  }

  lemma DumpKind(v: Value, r: string)
    ensures DumpThen(v, r) != "" && Kind(DumpThen(v, r)[0]) == KindOf(v)
  {
    match v
    case Int(n) => DecimalHead(n, r);
    case Bool(b) => assert DumpThen(v, r)[0] == if b then 't' else 'f';
    case _ =>
  }

  /** Two values whose texts start one text are the same value, and the same text is left over. */
  lemma {:induction false} DumpDecodes(v: Value, r: string, w: Value, q: string)
    requires DumpThen(v, r) == DumpThen(w, q) && Delimited(r) && Delimited(q)
    ensures v == w && r == q
    decreases v, 1
  {
    DumpKind(v, r);
    DumpKind(w, q);
    match v
    case Null => Cancel("null", r, q);
    case Bool(b) => Cancel(if b then "true" else "false", r, q);
    case Int(n) => DecimalDecodes(n, r, w.n, q);
    case Str(s) =>
      Cancel(['"'], EscapeThen(s, r), EscapeThen(w.s, q));
      EscapeDecodes(s, r, w.s, q);
    case Arr(items) =>
      Cancel(['['], ItemsThen(items, r), ItemsThen(w.items, q));
      ItemsDecode(items, r, w.items, q);
    case Obj(fields) => ObjDecodes(v, r, w, q);
  }

  lemma {:induction false} ObjDecodes(v: Value, r: string, w: Value, q: string)
    requires v.Obj? && w.Obj? && DumpThen(v, r) == DumpThen(w, q)
    ensures v == w && r == q
    decreases v, 0, |SortedKeys(v.fields.Keys)| + 1
  {
    var ks, js := SortedKeys(v.fields.Keys), SortedKeys(w.fields.Keys);
    Cancel(['{'], FieldsThen(v, ks, r), FieldsThen(w, js, q));
    FieldsDecode(v, ks, r, w, js, q);
    assert v.fields.Keys == w.fields.Keys;
  }

  lemma {:induction false} ItemsDecode(xs: seq<Value>, r: string, ys: seq<Value>, q: string)
    requires ItemsThen(xs, r) == ItemsThen(ys, q)
    ensures xs == ys && r == q
    decreases xs, 2
  {
    if xs == [] && ys == [] {
      Cancel([']'], r, q);
    } else if xs == [] {
      DumpKind(ys[0], if |ys| == 1 then [']'] + q else ", " + ItemsThen(ys[1..], q));
    } else if ys == [] {
      DumpKind(xs[0], if |xs| == 1 then [']'] + r else ", " + ItemsThen(xs[1..], r));
    } else {
      var a := if |xs| == 1 then [']'] + r else ", " + ItemsThen(xs[1..], r);
      var b := if |ys| == 1 then [']'] + q else ", " + ItemsThen(ys[1..], q);
      DumpDecodes(xs[0], a, ys[0], b);
      assert xs == [xs[0]] + xs[1..] && ys == [ys[0]] + ys[1..];
      if |xs| == 1 {
        Cancel([']'], r, q);
      } else {
        Cancel(", ", ItemsThen(xs[1..], r), ItemsThen(ys[1..], q));
        ItemsDecode(xs[1..], r, ys[1..], q);
      }
    }
  }

  lemma FieldsHead(v: Value, ks: seq<string>, r: string)
    requires v.Obj? && forall k :: k in ks ==> k in v.fields
    ensures FieldsThen(v, ks, r) != "" && FieldsThen(v, ks, r)[0] == if ks == [] then '}' else '"'
  {
  }

  lemma {:induction false} FieldsDecode(v: Value, ks: seq<string>, r: string, w: Value, js: seq<string>, q: string)
    requires v.Obj? && forall k :: k in ks ==> k in v.fields
    requires w.Obj? && forall j :: j in js ==> j in w.fields
    requires FieldsThen(v, ks, r) == FieldsThen(w, js, q)
    ensures ks == js && r == q && forall k :: k in ks ==> v.fields[k] == w.fields[k]
    decreases v, 0, |ks|
  {
    FieldsHead(v, ks, r);
    FieldsHead(w, js, q);
    if ks == [] {
      Cancel(['}'], r, q);
    } else {
      var k, j := ks[0], js[0];
      var a := if |ks| == 1 then ['}'] + r else ", " + FieldsThen(v, ks[1..], r);
      var b := if |js| == 1 then ['}'] + q else ", " + FieldsThen(w, js[1..], q);
      var c, d := DumpThen(v.fields[k], a), DumpThen(w.fields[j], b);
      Cancel(['"'], EscapeThen(k, ": " + c), EscapeThen(j, ": " + d));
      EscapeDecodes(k, ": " + c, j, ": " + d);
      Cancel(": ", c, d);
      DumpDecodes(v.fields[k], a, w.fields[j], b);
      assert ks == [k] + ks[1..] && js == [j] + js[1..];
      if |ks| == 1 {
        Cancel(['}'], r, q);
      } else {
        Cancel(", ", FieldsThen(v, ks[1..], r), FieldsThen(w, js[1..], q));
        FieldsDecode(v, ks[1..], r, w, js[1..], q);
      }
    }
  }

  /** The canonical text determines the value: nested objects, arrays, strings and integers alike. */
  lemma DumpInjective(v: Value, w: Value)
    requires Dump(v) == Dump(w)
    ensures v == w
  {
    DumpDecodes(v, "", w, "");
  }

  // ---------- The same text, written plainly ----------

  function Escaped(s: string): string { if s == "" then "" else EscapeChar(s[0]) + Escaped(s[1..]) }

  function Decimal(n: int): string { if n < 0 then "-" + Digits(-n) else Digits(n) }

  /** Items and members separated by a comma and a space, keys and values by a colon and a space, keys in order. */
  function Text(v: Value): string
    decreases v, 1
  {
    match v
    case Null => "null"
    case Bool(b) => if b then "true" else "false"
    case Int(n) => Decimal(n)
    case Str(s) => "\"" + (Escaped(s) + "\"")
    case Arr(items) => "[" + (ItemsText(items) + "]")
    case Obj(fields) => "{" + (MembersText(v, SortedKeys(fields.Keys)) + "}")
  }

  function ItemsText(items: seq<Value>): string
    decreases items, 2
  {
    if items == [] then ""
    else if |items| == 1 then Text(items[0])
    else Text(items[0]) + (", " + ItemsText(items[1..]))
  }

  function MembersText(v: Value, keys: seq<string>): string
    requires v.Obj? && forall k :: k in keys ==> k in v.fields
    decreases v, 0, |keys|
  {
    if keys == [] then ""
    else
      var member := "\"" + (Escaped(keys[0]) + ("\"" + (": " + Text(v.fields[keys[0]]))));
      if |keys| == 1 then member else member + (", " + MembersText(v, keys[1..]))
  }

  lemma {:induction false} EscapePrints(s: string, r: string)
    ensures EscapeThen(s, r) == Escaped(s) + ("\"" + r)
  {
    if s != "" {
      EscapePrints(s[1..], r);
      Regroup(EscapeChar(s[0]), Escaped(s[1..]), "\"" + r);
    }
  }

  lemma Regroup(a: string, b: string, c: string)
    ensures a + (b + c) == a + b + c
  {
  }

  lemma {:induction false} PrintsText(v: Value, r: string)
    ensures DumpThen(v, r) == Text(v) + r
    decreases v, 1
  {
    match v
    case Null =>
    case Bool(b) =>
    case Int(n) => if n < 0 { Regroup("-", Digits(-n), r); }
    case Str(s) =>
      EscapePrints(s, r);
      Regroup(Escaped(s), "\"", r);
      Regroup("\"", Escaped(s) + "\"", r);
    case Arr(items) =>
      ItemsPrint(items, r);
      Regroup(ItemsText(items), "]", r);
      Regroup("[", ItemsText(items) + "]", r);
    case Obj(fields) =>
      var keys := SortedKeys(fields.Keys);
      MembersPrint(v, keys, r);
      Regroup(MembersText(v, keys), "}", r);
      Regroup("{", MembersText(v, keys) + "}", r);
  }

  lemma {:induction false} ItemsPrint(items: seq<Value>, r: string)
    ensures ItemsThen(items, r) == ItemsText(items) + ("]" + r)
    decreases items, 2
  {
    if |items| == 1 {
      PrintsText(items[0], "]" + r);
    } else if |items| > 1 {
      var rest := ItemsText(items[1..]);
      ItemsPrint(items[1..], r);
      PrintsText(items[0], ", " + ItemsThen(items[1..], r));
      Regroup(", ", rest, "]" + r);
      Regroup(Text(items[0]), ", " + rest, "]" + r);
    }
  }

  lemma {:induction false} MemberPrints(v: Value, k: string, rest: string)
    requires v.Obj? && k in v.fields
    ensures ['"'] + EscapeThen(k, ": " + DumpThen(v.fields[k], rest))
         == "\"" + (Escaped(k) + ("\"" + (": " + Text(v.fields[k])))) + rest
    decreases v, 0, 0
  {
    var t := Text(v.fields[k]);
    PrintsText(v.fields[k], rest);
    EscapePrints(k, ": " + (t + rest));
    Regroup(": ", t, rest);
    Regroup("\"", ": " + t, rest);
    Regroup(Escaped(k), "\"" + (": " + t), rest);
    Regroup("\"", Escaped(k) + ("\"" + (": " + t)), rest);
  }

  lemma {:induction false} MembersPrint(v: Value, keys: seq<string>, r: string)
    requires v.Obj? && forall k :: k in keys ==> k in v.fields
    ensures FieldsThen(v, keys, r) == MembersText(v, keys) + ("}" + r)
    decreases v, 0, |keys| + 1
  {
    if |keys| == 1 {
      MemberPrints(v, keys[0], "}" + r);
    } else if |keys| > 1 {
      var rest := MembersText(v, keys[1..]);
      MembersPrint(v, keys[1..], r);
      MemberPrints(v, keys[0], ", " + FieldsThen(v, keys[1..], r));
      Regroup(", ", rest, "}" + r);
      Regroup("\"" + (Escaped(keys[0]) + ("\"" + (": " + Text(v.fields[keys[0]])))), ", " + rest, "}" + r);
    }
  }

  /** The printer writes the plain text. */
  lemma DumpIsText(v: Value)
    ensures Dump(v) == Text(v)
  {
    PrintsText(v, "");
    assert Text(v) + "" == Text(v);
  }
}
