// JSON values and the compact, key-sorted text `json.dumps` prints for them
// (sort_keys, separators "," and ":", ensure_ascii off), with unique readability.

module Json {
  /** A parsed value.  A number is the text Python prints for it. */
  datatype Json =
    | Null
    | Bool(b: bool)
    | Num(text: string)
    | Str(s: string)
    | Arr(items: seq<Json>)
    | Obj(fields: map<string, Json>)

  // ----- Well-formed values -------------------------------------------------------------

  predicate Delimiter(c: char) {
    c in ",]}"
  }

  predicate NumberText(t: string) {
    t != "" && t[0] in "-0123456789NI" && forall c :: c in t ==> c > ' ' && !Delimiter(c)
  }

  predicate WellFormed(j: Json) {
    match j
    case Num(t) => NumberText(t)
    case Arr(items) => forall x :: x in items ==> WellFormed(x)
    case Obj(fields) => forall k :: k in fields ==> WellFormed(fields[k])
    case _ => true
  }

  // ----- Keys in code-point order ----------------------------------------------------------

  predicate Less(a: string, b: string) {
    b != "" && (a == "" || a[0] < b[0] || (a[0] == b[0] && Less(a[1..], b[1..])))
  }

  lemma {:induction false} LessTotal(a: string, b: string)
    ensures a == b || Less(a, b) || Less(b, a)
  {
    if a != "" && b != "" && a[0] == b[0] {
      LessTotal(a[1..], b[1..]);
      assert a == [a[0]] + a[1..] && b == [b[0]] + b[1..];
    }
  }

  lemma {:induction false} LessTransitive(a: string, b: string, c: string)
    requires Less(a, b) && Less(b, c)
    ensures Less(a, c)
  {
    if a != "" && a[0] == b[0] == c[0] {
      LessTransitive(a[1..], b[1..], c[1..]);
    }
  }

  predicate IsLeast(k: string, s: set<string>) {
    k in s && forall other :: other in s ==> other == k || Less(k, other)
  }

  lemma {:induction false} LeastExists(s: set<string>) returns (k: string)
    requires s != {}
    ensures IsLeast(k, s)
    decreases |s|
  {
    var x :| x in s;
    if s == {x} {
      k := x;
    } else {
      var rest := s - {x};
      var y := LeastExists(rest);
      LessTotal(x, y);
      k := if Less(x, y) then x else y;
      forall other | other in s ensures other == k || Less(k, other) {
        if Less(x, y) && other != x && other != y {
          LessTransitive(x, y, other);
        }
      }
    }
  }

  /** The keys in strictly ascending order. */
  ghost function SortedKeys(s: set<string>): (keys: seq<string>)
    ensures forall k :: k in keys <==> k in s
    ensures forall i, j :: 0 <= i < j < |keys| ==> Less(keys[i], keys[j])
    decreases |s|
  {
    if s == {} then []
    else
      assert exists k :: IsLeast(k, s) by {
        var k := LeastExists(s);
      }
      var k :| IsLeast(k, s);
      var rest := SortedKeys(s - {k});
      assert forall i :: 0 <= i < |rest| ==> rest[i] in s - {k};
      [k] + rest
  }

  // ----- Printing ----------------------------------------------------------------------------

  function HexDigit(n: nat): char
    requires n < 16
  {
    "0123456789abcdef"[n]
  }

  function EscapeChar(c: char): string {
    if c == '"' then "\\\""
    else if c == '\\' then "\\\\"
    else if c == '\n' then "\\n"
    else if c == '\r' then "\\r"
    else if c == '\t' then "\\t"
    else if c == '\U{000C}' then "\\f"
    else if c == '\U{0008}' then "\\b"
    else if c < ' ' then "\\u00" + [HexDigit(c as int / 16), HexDigit(c as int % 16)]
    else [c]
  }

  function Escape(s: string): string {
    if s == "" then "" else EscapeChar(s[0]) + Escape(s[1..])
  }

  /** The rest of a string literal after its opening quote. */
  function Quoted(s: string): string {
    Escape(s) + "\""
  }

  ghost function Print(j: Json): string
    decreases j, 2
  {
    match j
    case Null => "null"
    case Bool(b) => if b then "true" else "false"
    case Num(t) => t
    case Str(s) => "\"" + Quoted(s)
    case Arr(items) => "[" + if items == [] then "]" else Print(items[0]) + ItemsTail(j, items[1..])
    case Obj(fields) =>
      var keys := SortedKeys(fields.Keys);
      "{" + if keys == [] then "}" else PrintField(j, fields, keys[0]) + FieldsTail(j, fields, keys[1..])
  }

  /** The items after the first, each behind a comma, and the closing bracket. */
  ghost function ItemsTail(whole: Json, items: seq<Json>): string
    requires forall i :: 0 <= i < |items| ==> items[i] < whole
    decreases whole, 1, |items|
  {
    if items == [] then "]" else "," + (Print(items[0]) + ItemsTail(whole, items[1..]))
  }

  ghost function PrintField(whole: Json, fields: map<string, Json>, key: string): string
    requires key in fields && fields[key] < whole
    decreases whole, 0
  {
    "\"" + (Quoted(key) + (":" + Print(fields[key])))
  }

  /** The fields after the first, each behind a comma, and the closing brace. */
  ghost function FieldsTail(whole: Json, fields: map<string, Json>, keys: seq<string>): string
    requires forall i :: 0 <= i < |keys| ==> keys[i] in fields && fields[keys[i]] < whole
    decreases whole, 1, |keys|
  {
    if keys == [] then "}" else "," + (PrintField(whole, fields, keys[0]) + FieldsTail(whole, fields, keys[1..]))
  }

  // ----- Escapes are uniquely readable ------------------------------------------------------

  lemma HexPairUnique(c: char, d: char)
    requires c < ' ' && d < ' '
    requires HexDigit(c as int / 16) == HexDigit(d as int / 16) && HexDigit(c as int % 16) == HexDigit(d as int % 16)
    ensures c == d
  {
    var digits := "0123456789abcdef";
    assert forall i, j :: 0 <= i < j < 16 ==> digits[i] != digits[j];
  }

  /** Two escapes that share a beginning are equal. */
  lemma EscapeCharUnique(c: char, d: char, x: string, y: string)
    requires EscapeChar(c) + x == EscapeChar(d) + y
    ensures c == d && x == y
  {
    var l, r := EscapeChar(c) + x, EscapeChar(d) + y;
    assert l[0] == r[0];
    if l[0] == '\\' {
      assert l[1] == r[1];
      if l[1] == 'u' {
        assert l[4] == r[4] && l[5] == r[5];
        HexPairUnique(c, d);
      }
    }
    Cancel(EscapeChar(c), x, y);
  }

  lemma Assoc(a: string, b: string, c: string)
    ensures (a + b) + c == a + (b + c)
  {
  }

  lemma QuotedFirst(s: string, x: string)
    requires s != ""
    ensures Quoted(s) + x == EscapeChar(s[0]) + (Quoted(s[1..]) + x)
    ensures (Quoted(s) + x)[0] != '"'
  {
    assert Escape(s) == EscapeChar(s[0]) + Escape(s[1..]);
    assert Quoted(s) == EscapeChar(s[0]) + Quoted(s[1..]);
    Assoc(EscapeChar(s[0]), Quoted(s[1..]), x);
    assert EscapeChar(s[0]) != "" && EscapeChar(s[0])[0] != '"';
  }

  lemma {:induction false} QuotedUnique(s: string, t: string, x: string, y: string)
    requires Quoted(s) + x == Quoted(t) + y
    ensures s == t && x == y
  {
    if s != "" {
      QuotedFirst(s, x);
    }
    if t != "" {
      QuotedFirst(t, y);
    }
    if s == "" || t == "" {
      assert (Quoted(s) + x)[0] == (Quoted(t) + y)[0];
      assert x == (Quoted(s) + x)[1..] && y == (Quoted(t) + y)[1..];
    } else {
      EscapeCharUnique(s[0], t[0], Quoted(s[1..]) + x, Quoted(t[1..]) + y);
      QuotedUnique(s[1..], t[1..], x, y);
      assert s == [s[0]] + s[1..] && t == [t[0]] + t[1..];
    }
  }

  // ----- Printed values are uniquely readable ---------------------------------------------------

  /** What may follow a printed value: nothing, or a delimiter. */
  predicate Ends(x: string) {
    x == "" || Delimiter(x[0])
  }

  lemma Cancel(p: string, s: string, t: string)
    requires p + s == p + t
    ensures s == t
  {
    assert s == (p + s)[|p|..] && t == (p + t)[|p|..];
  }

  lemma NumberLength(t: string, u: string, x: string, y: string)
    requires NumberText(u) && Ends(x) && t + x == u + y
    ensures |t| >= |u|
  {
    assert x != "" ==> (t + x)[|t|] == x[0];
  }

  lemma NumberUnique(t: string, u: string, x: string, y: string)
    requires NumberText(t) && NumberText(u) && Ends(x) && Ends(y) && t + x == u + y
    ensures t == u && x == y
  {
    NumberLength(t, u, x, y);
    NumberLength(u, t, y, x);
    assert t == (t + x)[..|t|] && u == (u + y)[..|u|];
    Cancel(t, x, y);
  }

  /** The first character tells the constructors apart, and never closes a list. */
  lemma PrintHead(j: Json)
    requires WellFormed(j)
    ensures Print(j) != ""
    ensures match j
            case Null => Print(j)[0] == 'n'
            case Bool(b) => Print(j)[0] == if b then 't' else 'f'
            case Num(t) => Print(j)[0] in "-0123456789NI"
            case Str(_) => Print(j)[0] == '"'
            case Arr(_) => Print(j)[0] == '['
            case Obj(_) => Print(j)[0] == '{'
  {
  }

  lemma SameShape(a: Json, b: Json, x: string, y: string)
    requires WellFormed(a) && WellFormed(b) && Print(a) + x == Print(b) + y
    ensures (a.Null? && b.Null?) || (a.Bool? && b == a) || (a.Num? && b.Num?) || (a.Str? && b.Str?)
         || (a.Arr? && b.Arr?) || (a.Obj? && b.Obj?)
  {
    PrintHead(a);
    PrintHead(b);
    assert (Print(a) + x)[0] == Print(a)[0] == Print(b)[0];
  }

  /**
   * Unique readability: two well-formed values whose texts share a beginning up to a
   * delimiter are equal.  In particular the printer is injective.
   */
  lemma {:induction false} PrintUnique(a: Json, b: Json, x: string, y: string)
    requires WellFormed(a) && WellFormed(b) && Ends(x) && Ends(y)
    requires Print(a) + x == Print(b) + y
    ensures a == b && x == y
    decreases a, 2
  {
    SameShape(a, b, x, y);
    match a {
      case Null => Cancel(Print(a), x, y);
      case Bool(_) => Cancel(Print(a), x, y);
      case Num(t) => NumberUnique(t, b.text, x, y);
      case Str(s) =>
        Assoc("\"", Quoted(s), x);
        Assoc("\"", Quoted(b.s), y);
        Cancel("\"", Quoted(s) + x, Quoted(b.s) + y);
        QuotedUnique(s, b.s, x, y);
      case Arr(_) => ArrUnique(a, b, x, y);
      case Obj(_) => ObjUnique(a, b, x, y);
    }
  }

  lemma {:induction false} ArrUnique(a: Json, b: Json, x: string, y: string)
    requires a.Arr? && b.Arr? && WellFormed(a) && WellFormed(b) && Print(a) + x == Print(b) + y
    ensures a == b && x == y
    decreases a, 1
  {
    var xs, ys := a.items, b.items;
    var l := if xs == [] then "]" else Print(xs[0]) + ItemsTail(a, xs[1..]);
    var r := if ys == [] then "]" else Print(ys[0]) + ItemsTail(b, ys[1..]);
    Assoc("[", l, x);
    Assoc("[", r, y);
    Cancel("[", l + x, r + y);
    if xs != [] {
      PrintHead(xs[0]);
    }
    if ys != [] {
      PrintHead(ys[0]);
    }
    assert (l + x)[0] == l[0] && (r + y)[0] == r[0];
    if xs == [] || ys == [] {
      Cancel("]", x, y);
    } else {
      ItemUnique(a, b, xs, ys, x, y);
    }
  }

  lemma {:induction false} ItemUnique(a: Json, b: Json, xs: seq<Json>, ys: seq<Json>, x: string, y: string)
    requires xs != [] && ys != []
    requires forall i :: 0 <= i < |xs| ==> xs[i] < a && WellFormed(xs[i])
    requires forall i :: 0 <= i < |ys| ==> ys[i] < b && WellFormed(ys[i])
    requires (Print(xs[0]) + ItemsTail(a, xs[1..])) + x == (Print(ys[0]) + ItemsTail(b, ys[1..])) + y
    ensures xs == ys && x == y
    decreases a, 0, |xs|, 1
  {
    var x', y' := ItemsTail(a, xs[1..]) + x, ItemsTail(b, ys[1..]) + y;
    Assoc(Print(xs[0]), ItemsTail(a, xs[1..]), x);
    Assoc(Print(ys[0]), ItemsTail(b, ys[1..]), y);
    PrintUnique(xs[0], ys[0], x', y');
    ItemsTailUnique(a, b, xs[1..], ys[1..], x, y);
    assert xs == [xs[0]] + xs[1..] && ys == [ys[0]] + ys[1..];
  }

  lemma {:induction false} ItemsTailUnique(a: Json, b: Json, xs: seq<Json>, ys: seq<Json>, x: string, y: string)
    requires forall i :: 0 <= i < |xs| ==> xs[i] < a && WellFormed(xs[i])
    requires forall i :: 0 <= i < |ys| ==> ys[i] < b && WellFormed(ys[i])
    requires ItemsTail(a, xs) + x == ItemsTail(b, ys) + y
    ensures xs == ys && x == y
    decreases a, 0, |xs| + 1, 0
  {
    assert (ItemsTail(a, xs) + x)[0] == (ItemsTail(b, ys) + y)[0];
    if xs == [] || ys == [] {
      Cancel("]", x, y);
    } else {
      var l, r := Print(xs[0]) + ItemsTail(a, xs[1..]), Print(ys[0]) + ItemsTail(b, ys[1..]);
      Assoc(",", l, x);
      Assoc(",", r, y);
      Cancel(",", l + x, r + y);
      ItemUnique(a, b, xs, ys, x, y);
    }
  }

  /** A printed object after its opening brace. */
  ghost function ObjText(j: Json): string
    requires j.Obj?
  {
    var keys := SortedKeys(j.fields.Keys);
    if keys == [] then "}" else PrintField(j, j.fields, keys[0]) + FieldsTail(j, j.fields, keys[1..])
  }

  lemma ObjTextFirst(j: Json, x: string)
    requires j.Obj?
    ensures Print(j) + x == "{" + (ObjText(j) + x)
    ensures (ObjText(j) + x)[0] == '}' <==> SortedKeys(j.fields.Keys) == []
  {
    Assoc("{", ObjText(j), x);
    assert (ObjText(j) + x)[0] == ObjText(j)[0];
  }

  lemma {:induction false} ObjUnique(a: Json, b: Json, x: string, y: string)
    requires a.Obj? && b.Obj? && WellFormed(a) && WellFormed(b) && Print(a) + x == Print(b) + y
    ensures a == b && x == y
    decreases a, 1
  {
    var ks, ls := SortedKeys(a.fields.Keys), SortedKeys(b.fields.Keys);
    ObjTextFirst(a, x);
    ObjTextFirst(b, y);
    Cancel("{", ObjText(a) + x, ObjText(b) + y);
    if ks == [] || ls == [] {
      Cancel("}", x, y);
    } else {
      FieldUnique(a, b, a.fields, b.fields, ks, ls, x, y);
    }
    SameFields(a.fields, b.fields);
  }

  lemma SameFields(m: map<string, Json>, n: map<string, Json>)
    requires SortedKeys(m.Keys) == SortedKeys(n.Keys)
    requires forall k :: k in SortedKeys(m.Keys) ==> k in m && k in n && m[k] == n[k]
    ensures m == n
  {
    assert m.Keys == n.Keys;
  }

  /** One field is readable from its opening quote to the delimiter after its value. */
  lemma {:induction false} FieldTextUnique(a: Json, b: Json, m: map<string, Json>, n: map<string, Json>, k: string,
                                           j: string, x: string, y: string)
    requires k in m && m[k] < a && WellFormed(m[k]) && Ends(x)
    requires j in n && n[j] < b && WellFormed(n[j]) && Ends(y)
    requires PrintField(a, m, k) + x == PrintField(b, n, j) + y
    ensures k == j && m[k] == n[j] && x == y
    decreases a, 0, 0, 0
  {
    var v, w := ":" + Print(m[k]), ":" + Print(n[j]);
    Assoc("\"", Quoted(k) + v, x);
    Assoc("\"", Quoted(j) + w, y);
    Cancel("\"", (Quoted(k) + v) + x, (Quoted(j) + w) + y);
    Assoc(Quoted(k), v, x);
    Assoc(Quoted(j), w, y);
    QuotedUnique(k, j, v + x, w + y);
    Assoc(":", Print(m[k]), x);
    Assoc(":", Print(n[j]), y);
    Cancel(":", Print(m[k]) + x, Print(n[j]) + y);
    PrintUnique(m[k], n[j], x, y);
  }

  lemma {:induction false} FieldUnique(a: Json, b: Json, m: map<string, Json>, n: map<string, Json>, ks: seq<string>,
                                       ls: seq<string>, x: string, y: string)
    requires ks != [] && ls != []
    requires forall i :: 0 <= i < |ks| ==> ks[i] in m && m[ks[i]] < a && WellFormed(m[ks[i]])
    requires forall i :: 0 <= i < |ls| ==> ls[i] in n && n[ls[i]] < b && WellFormed(n[ls[i]])
    requires (PrintField(a, m, ks[0]) + FieldsTail(a, m, ks[1..])) + x
          == (PrintField(b, n, ls[0]) + FieldsTail(b, n, ls[1..])) + y
    ensures ks == ls && x == y && forall k :: k in ks ==> m[k] == n[k]
    decreases a, 0, |ks|, 1
  {
    var kt, lt := ks[1..], ls[1..];
    var r, s := FieldsTail(a, m, kt), FieldsTail(b, n, lt);
    Assoc(PrintField(a, m, ks[0]), r, x);
    Assoc(PrintField(b, n, ls[0]), s, y);
    FieldTextUnique(a, b, m, n, ks[0], ls[0], r + x, s + y);
    FieldsTailUnique(a, b, m, n, kt, lt, x, y);
    assert ks == [ks[0]] + ks[1..] && ls == [ls[0]] + ls[1..];
  }

  lemma {:induction false} FieldsTailUnique(a: Json, b: Json, m: map<string, Json>, n: map<string, Json>,
                                            ks: seq<string>, ls: seq<string>, x: string, y: string)
    requires forall i :: 0 <= i < |ks| ==> ks[i] in m && m[ks[i]] < a && WellFormed(m[ks[i]])
    requires forall i :: 0 <= i < |ls| ==> ls[i] in n && n[ls[i]] < b && WellFormed(n[ls[i]])
    requires FieldsTail(a, m, ks) + x == FieldsTail(b, n, ls) + y
    ensures ks == ls && x == y && forall k :: k in ks ==> m[k] == n[k]
    decreases a, 0, |ks| + 1, 0
  {
    assert (FieldsTail(a, m, ks) + x)[0] == (FieldsTail(b, n, ls) + y)[0];
    if ks == [] || ls == [] {
      Cancel("}", x, y);
    } else {
      var l := PrintField(a, m, ks[0]) + FieldsTail(a, m, ks[1..]);
      var r := PrintField(b, n, ls[0]) + FieldsTail(b, n, ls[1..]);
      Assoc(",", l, x);
      Assoc(",", r, y);
      Cancel(",", l + x, r + y);
      FieldUnique(a, b, m, n, ks, ls, x, y);
    }
  }

  // ----- No control character survives printing (section 7 of RFC 8259) --------------------------

  lemma {:induction false} EscapeHasNoControl(s: string)
    ensures forall c :: c in Escape(s) ==> c >= ' '
  {
    if s != "" {
      EscapeHasNoControl(s[1..]);
    }
  }

  lemma {:induction false} PrintHasNoControl(j: Json)
    requires WellFormed(j)
    ensures forall c :: c in Print(j) ==> c >= ' '
    decreases j, 2
  {
    match j {
      case Str(s) => EscapeHasNoControl(s);
      case Arr(items) =>
        if items != [] {
          PrintHasNoControl(items[0]);
          ItemsHaveNoControl(j, items[1..]);
        }
      case Obj(fields) => ObjHasNoControl(j);
      case _ =>
    }
  }

  lemma {:induction false} ObjHasNoControl(j: Json)
    requires j.Obj? && WellFormed(j)
    ensures forall c :: c in Print(j) ==> c >= ' '
    decreases j, 1
  {
    var keys := SortedKeys(j.fields.Keys);
    if keys != [] {
      forall i | 0 <= i < |keys| ensures keys[i] in j.fields && WellFormed(j.fields[keys[i]]) {
        var k := keys[i];
        assert k in keys;
      }
      FieldHasNoControl(j, j.fields, keys[0]);
      assert forall i :: 0 <= i < |keys[1..]| ==> keys[1..][i] == keys[i + 1];
      FieldsHaveNoControl(j, j.fields, keys[1..]);
    }
  }

  lemma {:induction false} ItemsHaveNoControl(whole: Json, items: seq<Json>)
    requires forall i :: 0 <= i < |items| ==> items[i] < whole && WellFormed(items[i])
    ensures forall c :: c in ItemsTail(whole, items) ==> c >= ' '
    decreases whole, 1, |items|
  {
    if items != [] {
      PrintHasNoControl(items[0]);
      ItemsHaveNoControl(whole, items[1..]);
    }
  }

  lemma {:induction false} FieldHasNoControl(whole: Json, fields: map<string, Json>, key: string)
    requires key in fields && fields[key] < whole && WellFormed(fields[key])
    ensures forall c :: c in PrintField(whole, fields, key) ==> c >= ' '
    decreases whole, 0
  {
    EscapeHasNoControl(key);
    PrintHasNoControl(fields[key]);
  }

  lemma {:induction false} FieldsHaveNoControl(whole: Json, fields: map<string, Json>, keys: seq<string>)
    requires forall i :: 0 <= i < |keys| ==> keys[i] in fields && fields[keys[i]] < whole && WellFormed(fields[keys[i]])
    ensures forall c :: c in FieldsTail(whole, fields, keys) ==> c >= ' '
    decreases whole, 1, |keys|
  {
    if keys != [] {
      FieldHasNoControl(whole, fields, keys[0]);
      FieldsHaveNoControl(whole, fields, keys[1..]);
    }
  }
}
