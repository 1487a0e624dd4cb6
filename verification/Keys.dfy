// Canonical request keys (cache/keys.py) and the cache gate's decisions (cache/gate.py).
//
// The key is kept as the text that is hashed: the digest is taken to be injective.

module Keys {
  import opened Common
  import opened Json
  import opened Stages

  const SEPARATOR: char := '\U{001F}'

  // ----- The key ----------------------------------------------------------------------

  function UpperChar(c: char): char {
    if 'a' <= c <= 'z' then ((c as int) - 32) as char else c
  }

  /** `str.upper` on the ASCII letters an HTTP method is made of. */
  function Upper(s: string): string {
    seq(|s|, i requires 0 <= i < |s| => UpperChar(s[i]))
  }

  const SMALL := "abcdefghijklmnopqrstuvwxyz"
  const CAPITAL := "ABCDEFGHIJKLMNOPQRSTUVWXYZ"

  /** Letter by letter: the n-th small letter becomes the n-th capital, and nothing else changes. */
  lemma UpperIsExact(s: string, i: nat)
    requires i < |s|
    ensures |Upper(s)| == |s|
    ensures forall n :: 0 <= n < 26 && s[i] == SMALL[n] ==> Upper(s)[i] == CAPITAL[n]
    ensures s[i] !in SMALL ==> Upper(s)[i] == s[i]
  {
    Alphabet(s[i]);
  }

  /** The two alphabets in code-point order. */
  lemma Alphabet(c: char)
    ensures |SMALL| == |CAPITAL| == 26
    ensures forall n :: 0 <= n < 26 ==> SMALL[n] as int == 97 + n && CAPITAL[n] as int == 65 + n
    ensures 'a' <= c <= 'z' ==> c in SMALL
    ensures 'A' <= c <= 'Z' ==> c in CAPITAL
  {
    if 'a' <= c <= 'z' {
      assert SMALL[c as int - 97] == c;
    }
    if 'A' <= c <= 'Z' {
      assert CAPITAL[c as int - 65] == c;
    }
  }

  /** `str.lstrip("/")` */
  function StripSlashes(path: string): string {
    if path != "" && path[0] == '/' then StripSlashes(path[1..]) else path
  }

  /** Only slashes go, and every leading one does. */
  lemma {:induction false} StripSlashesIsExact(path: string, slashes: nat)
    requires slashes <= |path| && forall i :: 0 <= i < slashes ==> path[i] == '/'
    requires slashes < |path| ==> path[slashes] != '/'
    ensures StripSlashes(path) == path[slashes..]
  {
    if slashes > 0 {
      StripSlashesIsExact(path[1..], slashes - 1);
    }
  }

  /** A parsed body with its volatile top-level fields dropped. */
  function Normalized(body: Json): Json
    requires body.Obj?
  {
    Obj(body.fields - {"stream"})
  }

  /** The same fields with the same values, `stream` aside. */
  ghost predicate SameButStream(a: map<string, Json>, b: map<string, Json>) {
    forall f :: f != "stream" ==> (f in a <==> f in b) && (f in a ==> a[f] == b[f])
  }

  /** Nothing but `stream` is dropped, whatever the two bodies hold. */
  lemma NormalizedExactly(a: Json, b: Json)
    requires a.Obj? && b.Obj?
    ensures Normalized(a) == Normalized(b) <==> SameButStream(a.fields, b.fields)
  {
    var x, y := a.fields - {"stream"}, b.fields - {"stream"};
    if x == y {
      forall f | f != "stream" ensures (f in a.fields <==> f in b.fields)
          && (f in a.fields ==> a.fields[f] == b.fields[f]) {
        assert f in x <==> f in a.fields;
        assert f in y <==> f in b.fields;
      }
    }
  }

  ghost function Material(provider: string, verb: string, path: string, body: Json): string
    requires body.Obj?
  {
    provider + ([SEPARATOR]
        + (Upper(verb) + ([SEPARATOR] + (StripSlashes(path) + ([SEPARATOR] + Print(Normalized(body)))))))
  }

  /** `None` unless the body parsed to a JSON object. */
  ghost function CanonicalKey(provider: string, verb: string, path: string, parsed: Option<Json>): Option<string> {
    if parsed.Some? && parsed.value.Obj? then Some(Material(provider, verb, path, parsed.value)) else None
  }

  // ----- Splitting at the separator ---------------------------------------------------------

  lemma SplitFirst(a: string, b: string, x: string, y: string)
    requires SEPARATOR !in a && SEPARATOR !in b
    requires a + ([SEPARATOR] + x) == b + ([SEPARATOR] + y)
    ensures a == b && x == y
  {
    var l, r := a + ([SEPARATOR] + x), b + ([SEPARATOR] + y);
    assert l[|a|] == SEPARATOR && r[|b|] == SEPARATOR;
    assert a == l[..|a|] && b == r[..|b|];
    Cancel(a, [SEPARATOR] + x, [SEPARATOR] + y);
    Cancel([SEPARATOR], x, y);
  }

  lemma SplitLast(a: string, b: string, x: string, y: string)
    requires SEPARATOR !in x && SEPARATOR !in y
    requires a + ([SEPARATOR] + x) == b + ([SEPARATOR] + y)
    ensures a == b && x == y
  {
    var l, r := a + ([SEPARATOR] + x), b + ([SEPARATOR] + y);
    assert l[|a|] == SEPARATOR && r[|b|] == SEPARATOR;
    assert a == l[..|a|] && b == r[..|b|];
    Cancel(a, [SEPARATOR] + x, [SEPARATOR] + y);
    Cancel([SEPARATOR], x, y);
  }

  lemma PrintUniqueWhole(a: Json, b: Json)
    requires WellFormed(a) && WellFormed(b) && Print(a) == Print(b)
    ensures a == b
  {
    assert Print(a) + "" == Print(a) && Print(b) + "" == Print(b);
    PrintUnique(a, b, "", "");
  }

  lemma PrintHasNoSeparator(j: Json)
    requires WellFormed(j)
    ensures SEPARATOR !in Print(j)
  {
    PrintHasNoControl(j);
  }

  /** Everything the key holds in front of the body. */
  function Front(provider: string, verb: string, path: string): string {
    provider + ([SEPARATOR] + (Upper(verb) + ([SEPARATOR] + StripSlashes(path))))
  }

  lemma MaterialSplits(p: string, m: string, e: string, body: Json)
    requires body.Obj?
    ensures Material(p, m, e, body) == Front(p, m, e) + ([SEPARATOR] + Print(Normalized(body)))
  {
    var rest := [SEPARATOR] + Print(Normalized(body));
    var path := StripSlashes(e);
    Assoc([SEPARATOR], path, rest);
    Assoc(Upper(m), [SEPARATOR] + path, rest);
    Assoc([SEPARATOR], Upper(m) + ([SEPARATOR] + path), rest);
    Assoc(p, [SEPARATOR] + (Upper(m) + ([SEPARATOR] + path)), rest);
  }

  /**
   * For any two requests whatever: they share a key iff they agree on the text in front of the
   * body and on every top-level field of the body but `stream`.
   */
  lemma KeyIsFrontAndBody(p: string, m: string, e: string, a: Json, q: string, n: string, f: string, b: Json)
    requires a.Obj? && b.Obj? && WellFormed(a) && WellFormed(b)
    ensures CanonicalKey(p, m, e, Some(a)) == CanonicalKey(q, n, f, Some(b))
       <==> Front(p, m, e) == Front(q, n, f) && SameButStream(a.fields, b.fields)
  {
    NormalizedExactly(a, b);
    MaterialSplits(p, m, e, a);
    MaterialSplits(q, n, f, b);
    if Material(p, m, e, a) == Material(q, n, f, b) {
      PrintHasNoSeparator(Normalized(a));
      PrintHasNoSeparator(Normalized(b));
      SplitLast(Front(p, m, e), Front(q, n, f), Print(Normalized(a)), Print(Normalized(b)));
      PrintUniqueWhole(Normalized(a), Normalized(b));
    }
  }

  lemma FrontSplits(p: string, m: string, e: string, q: string, n: string, f: string)
    requires SEPARATOR !in p && SEPARATOR !in q && SEPARATOR !in Upper(m) && SEPARATOR !in Upper(n)
    requires Front(p, m, e) == Front(q, n, f)
    ensures p == q && Upper(m) == Upper(n) && StripSlashes(e) == StripSlashes(f)
  {
    var s, t := Upper(m) + ([SEPARATOR] + StripSlashes(e)), Upper(n) + ([SEPARATOR] + StripSlashes(f));
    SplitFirst(p, q, s, t);
    SplitFirst(Upper(m), Upper(n), StripSlashes(e), StripSlashes(f));
  }

  /**
   * The key is exact: when provider names and methods are free of the separator, two requests
   * share a key iff they agree on provider, upper-cased method, path without leading slashes,
   * and every top-level field of the body but `stream`.  The path itself may contain the separator.
   */
  lemma KeyIsExact(p: string, m: string, e: string, a: Json, q: string, n: string, f: string, b: Json)
    requires a.Obj? && b.Obj? && WellFormed(a) && WellFormed(b)
    requires SEPARATOR !in p && SEPARATOR !in q && SEPARATOR !in Upper(m) && SEPARATOR !in Upper(n)
    ensures CanonicalKey(p, m, e, Some(a)) == CanonicalKey(q, n, f, Some(b)) <==>
      && p == q && Upper(m) == Upper(n) && StripSlashes(e) == StripSlashes(f)
      && SameButStream(a.fields, b.fields)
  {
    KeyIsFrontAndBody(p, m, e, a, q, n, f, b);
    if Front(p, m, e) == Front(q, n, f) {
      FrontSplits(p, m, e, q, n, f);
    }
  }

  /**
   * Not without its condition: two POST requests that the gate does key, one with the separator
   * in its provider's name and one with it in its path, are looked up as the same.
   */
  lemma SeparatorInProviderCollides(parsed: Json)
    requires parsed.Obj?
    ensures var sep := [SEPARATOR];
      var one := IdentityFor(true, true, "a" + sep + "POST" + sep + "b", "POST", "c", Some(parsed));
      var two := IdentityFor(true, true, "a", "POST", "b" + sep + "POST" + sep + "c", Some(parsed));
      one.Some? && two.Some? && one.value.key == two.value.key
  {
    var sep := [SEPARATOR];
    assert Upper("POST") == "POST";
    StripSlashesIsExact("c", 0);
    StripSlashesIsExact("b" + sep + "POST" + sep + "c", 0);
    MaterialSplits("a" + sep + "POST" + sep + "b", "POST", "c", parsed);
    MaterialSplits("a", "POST", "b" + sep + "POST" + sep + "c", parsed);
    FrontsCollide(sep);
  }

  lemma FrontsCollide(sep: string)
    ensures ("a" + sep + "POST" + sep + "b") + (sep + ("POST" + (sep + "c")))
         == "a" + (sep + ("POST" + (sep + ("b" + sep + "POST" + sep + "c"))))
  {
  }

  /** The stream flag never reaches the key. */
  lemma StreamFlagIsIgnored(p: string, m: string, e: string, fields: map<string, Json>, flag: Json)
    ensures CanonicalKey(p, m, e, Some(Obj(fields["stream" := flag]))) == CanonicalKey(p, m, e, Some(Obj(fields)))
  {
    assert fields["stream" := flag] - {"stream"} == fields - {"stream"};
  }

  // ----- The gate -------------------------------------------------------------------------

  /** Python truthiness of a parsed JSON value. */
  predicate Truthy(j: Json) {
    match j
    case Null => false
    case Bool(b) => b
    case Num(t) => t != "0" && t != "0.0" && t != "-0.0"
    case Str(s) => s != ""
    case Arr(items) => items != []
    case Obj(fields) => fields != map[]
  }

  /** What `bool` calls false among parsed values: nothing, no, zero in any spelling, and everything empty. */
  lemma FalseExactly(j: Json)
    ensures !Truthy(j) <==>
      j in {Null, Bool(false), Num("0"), Num("0.0"), Num("-0.0"), Str(""), Arr([]), Obj(map[])}
  {
  }

  function LowerChar(c: char): char {
    if 'A' <= c <= 'Z' then ((c as int) + 32) as char else c
  }

  function Lower(s: string): string {
    seq(|s|, i requires 0 <= i < |s| => LowerChar(s[i]))
  }

  /** Letter by letter, as `UpperIsExact`. */
  lemma LowerIsExact(s: string, i: nat)
    requires i < |s|
    ensures |Lower(s)| == |s|
    ensures forall n :: 0 <= n < 26 && s[i] == CAPITAL[n] ==> Lower(s)[i] == SMALL[n]
    ensures s[i] !in CAPITAL ==> Lower(s)[i] == s[i]
  {
    Alphabet(s[i]);
  }

  /** The wire format the client asked for: named in the path, or a truthy top-level `stream`. */
  predicate WantsStream(parsed: Option<Json>, path: string) {
    || Contains(Lower(path), "streamgeneratecontent")
    || (parsed.Some? && parsed.value.Obj? && "stream" in parsed.value.fields && Truthy(parsed.value.fields["stream"]))
  }

  /** What a request is looked up under, if the cache is on, it opted in and it is a POST with a JSON object. */
  ghost function IdentityFor(cacheOn: bool, optedIn: bool, provider: string, verb: string, path: string,
                             parsed: Option<Json>): Option<CacheIdentity> {
    if !cacheOn || Upper(verb) != "POST" || !optedIn then None
    else
      match CanonicalKey(provider, verb, path, parsed)
      case None => None
      case Some(key) => Some(CacheIdentity(key, WantsStream(parsed, path)))
  }
  /**
   * Exactly which requests are looked up, and under what: the method is POST in any case, and
   * the format is the one named in the path or by a top-level `stream` that Python calls true.
   */
  lemma IdentityExactly(cacheOn: bool, optedIn: bool, p: string, m: string, e: string, parsed: Option<Json>)
    ensures var identity := IdentityFor(cacheOn, optedIn, p, m, e, parsed);
      && (identity.Some? <==> cacheOn && optedIn && Upper(m) == "POST" && parsed.Some? && parsed.value.Obj?)
      && (identity.Some? ==>
            && CanonicalKey(p, m, e, parsed) == Some(identity.value.key)
            && (identity.value.streamed <==>
                  || (exists at: nat :: StandsAt(Lower(e), "streamgeneratecontent", at))
                  || ("stream" in parsed.value.fields
                      && parsed.value.fields["stream"] !in
                           {Null, Bool(false), Num("0"), Num("0.0"), Num("-0.0"), Str(""), Arr([]), Obj(map[])})))
  {
    if parsed.Some? && parsed.value.Obj? {
      ContainsExactly(Lower(e), "streamgeneratecontent");
      if "stream" in parsed.value.fields {
        FalseExactly(parsed.value.fields["stream"]);
      }
    }
  }
}
