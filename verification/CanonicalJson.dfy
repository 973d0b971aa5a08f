// The canonical JSON text whose hash identifies a published manifest: the text is the
// same for two values exactly when they are equal up to the order of object keys.
module CanonicalJson {
  import opened Text

  datatype Value =
    | Null | Bool(b: bool) | Number(token: string) | Str(text: string) | Array(items: Values) | Object(fields: Fields)
  datatype Values = Nil | Cons(head: Value, tail: Values)
  datatype Fields = End | Field(key: string, value: Value, rest: Fields)

  function Size(v: Value): nat {
    match v
    case Array(vs) => 1 + SizeValues(vs)
    case Object(f) => 1 + SizeFields(f)
    case _ => 1
  }

  function SizeValues(vs: Values): nat {
    match vs
    case Nil => 0
    case Cons(v, rest) => 1 + Size(v) + SizeValues(rest)
  }

  function SizeFields(f: Fields): nat {
    match f
    case End => 0
    case Field(_, v, rest) => 1 + Size(v) + SizeFields(rest)
  }

  // ----- strings, as in section 7 of RFC 8259 -----

  function HexDigit(n: nat): char
    requires n < 16
  {
    "0123456789abcdef"[n]
  }

  function Escape(c: char): string {
    if c == '\"' then "\\\""
    else if c == '\\' then "\\\\"
    else if c as int == 8 then "\\b"
    else if c as int == 9 then "\\t"
    else if c as int == 10 then "\\n"
    else if c as int == 12 then "\\f"
    else if c as int == 13 then "\\r"
    else if c as int < 32 then "\\u00" + [HexDigit(c as int / 16), HexDigit(c as int % 16)]
    else [c]
  }

  function Escaped(s: string): string {
    if s == [] then "" else Escape(s[0]) + Escaped(s[1..])
  }

  function Quote(s: string): string { "\"" + Escaped(s) + "\"" }

  // ----- the printer -----

  // Insertion by key; the keys of an object are distinct.
  function Insert(key: string, value: Value, f: Fields): (r: Fields)
    ensures SizeFields(r) == 1 + Size(value) + SizeFields(f)
  {
    match f
    case End => Field(key, value, End)
    case Field(k, v, rest) => if Leq(key, k) then Field(key, value, f) else Field(k, v, Insert(key, value, rest))
  }

  function Sort(f: Fields): (r: Fields)
    ensures SizeFields(r) == SizeFields(f)
  {
    match f
    case End => End
    case Field(k, v, rest) => Insert(k, v, Sort(rest))
  }

  function Canonical(v: Value): string
    decreases Size(v)
  {
    match v
    case Null => "null"
    case Bool(b) => if b then "true" else "false"
    case Number(token) => token
    case Str(s) => Quote(s)
    case Array(vs) => "[" + JoinValues(vs) + "]"
    case Object(f) => "{" + JoinFields(Sort(f)) + "}"
  }

  function JoinValues(vs: Values): string
    decreases SizeValues(vs), 0
  {
    match vs
    case Nil => ""
    case Cons(v, rest) => Canonical(v) + TailValues(rest)
  }

  function TailValues(vs: Values): string
    decreases SizeValues(vs), 1
  {
    if vs.Nil? then "" else "," + JoinValues(vs)
  }

  function JoinFields(f: Fields): string
    decreases SizeFields(f), 0
  {
    match f
    case End => ""
    case Field(k, v, rest) => Quote(k) + ":" + Canonical(v) + TailFields(rest)
  }

  function TailFields(f: Fields): string
    decreases SizeFields(f), 1
  {
    if f.End? then "" else "," + JoinFields(f)
  }

  // ----- what the values are -----

  function Keys(f: Fields): set<string> {
    match f
    case End => {}
    case Field(k, _, rest) => {k} + Keys(rest)
  }

  function Get(f: Fields, key: string): (v: Value)
    requires key in Keys(f)
    ensures Size(v) < 1 + SizeFields(f)
  {
    if f.key == key then f.value else Get(f.rest, key)
  }

  predicate Digit(c: char) { '0' <= c <= '9' }

  // A printed number: it starts with a digit or a minus and holds no delimiter.
  predicate NumberToken(t: string) {
    t != [] && (Digit(t[0]) || t[0] == '-') && forall i | 0 <= i < |t| :: Digit(t[i]) || t[i] in "+-.eE"
  }

  predicate Valid(v: Value) {
    match v
    case Number(token) => NumberToken(token)
    case Array(vs) => ValidValues(vs)
    case Object(f) => ValidFields(f)
    case _ => true
  }

  predicate ValidValues(vs: Values) {
    vs.Nil? || (Valid(vs.head) && ValidValues(vs.tail))
  }

  predicate ValidFields(f: Fields) {
    f.End? || (Valid(f.value) && f.key !in Keys(f.rest) && ValidFields(f.rest))
  }

  // Equal up to the order of keys.
  ghost predicate Same(a: Value, b: Value)
    decreases Size(a)
  {
    match (a, b)
    case (Array(vs), Array(ws)) => SameValues(vs, ws)
    case (Object(f), Object(g)) => Keys(f) == Keys(g) && forall k | k in Keys(f) :: Same(Get(f, k), Get(g, k))
    case (_, _) => a == b
  }

  ghost predicate SameValues(vs: Values, ws: Values)
    decreases SizeValues(vs)
  {
    match (vs, ws)
    case (Nil, Nil) => true
    case (Cons(v, vr), Cons(w, wr)) => Same(v, w) && SameValues(vr, wr)
    case (_, _) => false
  }

  // ----- strings read back uniquely -----

  // The character behind a two-character escape.
  function Unescape(e: char): int {
    if e == 'b' then 8 else if e == 't' then 9 else if e == 'n' then 10 else if e == 'f' then 12
    else if e == 'r' then 13 else e as int
  }

  function HexValue(e: char): int { if '0' <= e <= '9' then e as int - '0' as int else e as int - 'a' as int + 10 }

  lemma HexReads(n: nat)
    requires n < 16
    ensures HexValue(HexDigit(n)) == n
  {
  }

  predicate Special(c: char) { c as int < 32 || c == '\"' || c == '\\' }

  // Every escape gives its character back.
  lemma EscapeForms(c: char)
    ensures !Special(c) ==> Escape(c) == [c] && c != '\\'
    ensures Special(c) ==> |Escape(c)| in {2, 6} && Escape(c)[0] == '\\'
    ensures |Escape(c)| == 2 ==> Escape(c)[1] != 'u' && c as int == Unescape(Escape(c)[1])
    ensures |Escape(c)| == 6 ==> Escape(c)[1] == 'u' && c as int == 16 * HexValue(Escape(c)[4]) + HexValue(Escape(c)[5])
  {
    if c as int < 32 {
      HexReads(c as int / 16);
      HexReads(c as int % 16);
    }
  }

  // No escape is a proper prefix of another.
  lemma EscapePrefix(c: char, d: char)
    requires Escape(c) <= Escape(d)
    ensures c == d
  {
    EscapeForms(c);
    EscapeForms(d);
    assert Escape(c)[0] == Escape(d)[0];
    assert Special(c) ==> Escape(c)[1] == Escape(d)[1];
  }

  lemma EscapeReads(c: char, d: char, x: string, y: string)
    requires Escape(c) + x == Escape(d) + y
    ensures c == d && x == y
  {
    var e, f, l, r := Escape(c), Escape(d), Escape(c) + x, Escape(d) + y;
    assert e == l[..|e|] && f == r[..|f|] && x == l[|e|..] && y == r[|f|..];
    if |e| <= |f| { EscapePrefix(c, d); } else { EscapePrefix(d, c); }
  }

  // The text after the opening quote, up to and past the closing one.
  function Closed(s: string, x: string): string { Escaped(s) + "\"" + x }

  lemma ClosedSplit(s: string, x: string)
    ensures s == [] ==> Closed(s, x) == ['\"'] + x
    ensures s != [] ==> Closed(s, x) == Escape(s[0]) + Closed(s[1..], x) && Closed(s, x)[0] != '\"'
  {
    if s != [] {
      assert Escaped(s) + "\"" + x == Escape(s[0]) + (Escaped(s[1..]) + "\"" + x);
      assert Closed(s, x)[0] == Escape(s[0])[0];
    }
  }

  lemma {:induction false} EscapedReads(s: string, t: string, x: string, y: string)
    requires Closed(s, x) == Closed(t, y)
    ensures s == t && x == y
    decreases |s|
  {
    ClosedSplit(s, x);
    ClosedSplit(t, y);
    if s == [] {
      assert x == Closed(s, x)[1..] && y == Closed(t, y)[1..];
    } else {
      EscapeReads(s[0], t[0], Closed(s[1..], x), Closed(t[1..], y));
      EscapedReads(s[1..], t[1..], x, y);
      assert s == [s[0]] + s[1..] && t == [t[0]] + t[1..];
    }
  }

  lemma QuoteReads(s: string, t: string, x: string, y: string)
    requires Quote(s) + x == Quote(t) + y
    ensures s == t && x == y
  {
    var l, r := Quote(s) + x, Quote(t) + y;
    assert l[1..] == Closed(s, x) && r[1..] == Closed(t, y);
    EscapedReads(s, t, x, y);
  }

  // ----- numbers -----

  predicate Stop(x: string) { x == "" || x[0] in ",]}" }

  lemma NumberReads(s: string, t: string, x: string, y: string)
    requires NumberToken(s) && NumberToken(t) && Stop(x) && Stop(y) && s + x == t + y
    ensures s == t && x == y
  {
    var l, r := s + x, t + y;
    assert forall i | 0 <= i < |s| :: l[i] == s[i];
    assert forall i | 0 <= i < |t| :: r[i] == t[i];
    assert |s| < |l| ==> l[|s|] == x[0];
    assert |t| < |r| ==> r[|t|] == y[0];
    assert |s| == |t|;
    assert s == l[..|s|] && t == r[..|t|] && x == l[|s|..] && y == r[|t|..];
  }

  // ----- sorting -----

  ghost predicate Rises(f: Fields) {
    f.End? || f.rest.End? || (Leq(f.key, f.rest.key) && f.key != f.rest.key && Rises(f.rest))
  }

  lemma {:induction false} InsertField(key: string, value: Value, f: Fields)
    requires key !in Keys(f) && Rises(f) && ValidFields(f) && Valid(value)
    ensures var r := Insert(key, value, f);
      Rises(r) && ValidFields(r) && Keys(r) == {key} + Keys(f) && (f.End? || r.key == key || r.key == f.key)
  {
    match f
    case End => {}
    case Field(k, v, rest) =>
      LeqTotal(key, k);
      if !Leq(key, k) { InsertField(key, value, rest); }
  }

  lemma {:induction false} InsertGet(key: string, value: Value, f: Fields)
    requires key !in Keys(f)
    ensures Keys(Insert(key, value, f)) == {key} + Keys(f) && Get(Insert(key, value, f), key) == value
    ensures forall k | k in Keys(f) :: Get(Insert(key, value, f), k) == Get(f, k)
  {
    match f
    case End => {}
    case Field(_, _, rest) => InsertGet(key, value, rest);
  }

  lemma {:induction false} SortFields(f: Fields)
    requires ValidFields(f)
    ensures Rises(Sort(f)) && ValidFields(Sort(f)) && Keys(Sort(f)) == Keys(f)
    ensures forall k | k in Keys(f) :: Get(Sort(f), k) == Get(f, k)
  {
    match f
    case End => {}
    case Field(k, v, rest) =>
      SortFields(rest);
      InsertField(k, v, Sort(rest));
      InsertGet(k, v, Sort(rest));
  }

  // Fields with the same keys in the same order and the same values.
  ghost predicate Aligned(f: Fields, g: Fields)
    decreases SizeFields(f)
  {
    match (f, g)
    case (End, End) => true
    case (Field(k, v, fr), Field(l, w, gr)) => k == l && Same(v, w) && Aligned(fr, gr)
    case (_, _) => false
  }

  ghost predicate Agree(f: Fields, g: Fields) {
    Keys(f) == Keys(g) && forall k | k in Keys(f) :: Same(Get(f, k), Get(g, k))
  }

  lemma {:induction false} AlignedAgree(f: Fields, g: Fields)
    requires Aligned(f, g)
    ensures Agree(f, g)
    decreases f
  {
    if f.Field? { AlignedAgree(f.rest, g.rest); }
  }

  lemma {:induction false} LeastKey(f: Fields, k: string)
    requires f.Field? && Rises(f) && k in Keys(f)
    ensures Leq(f.key, k) && (k in Keys(f.rest) ==> k != f.key)
    decreases f
  {
    LeqTotal(k, k);
    if k in Keys(f.rest) {
      LeastKey(f.rest, k);
      LeqTransitive(f.key, f.rest.key, k);
      if k == f.key { LeqAntisymmetric(f.key, f.rest.key); }
    }
  }

  lemma AgreeHead(f: Fields, g: Fields)
    requires f.Field? && g.Field? && Rises(f) && Rises(g) && Agree(f, g)
    ensures f.key == g.key && Same(f.value, g.value) && Agree(f.rest, g.rest)
  {
    LeastKey(f, g.key);
    LeastKey(g, f.key);
    LeqAntisymmetric(f.key, g.key);
    assert f.key in Keys(f) && Get(f, f.key) == f.value && Get(g, g.key) == g.value;
    forall k ensures k in Keys(f.rest) <==> k in Keys(f) && k != f.key { if k in Keys(f.rest) { LeastKey(f, k); } }
    forall k ensures k in Keys(g.rest) <==> k in Keys(g) && k != g.key { if k in Keys(g.rest) { LeastKey(g, k); } }
    forall k | k in Keys(f.rest) ensures Same(Get(f.rest, k), Get(g.rest, k)) {
      assert Get(f, k) == Get(f.rest, k) && Get(g, k) == Get(g.rest, k);
    }
  }

  lemma {:induction false} AgreeAligned(f: Fields, g: Fields)
    requires Rises(f) && Rises(g) && Agree(f, g)
    ensures Aligned(f, g)
    decreases f
  {
    assert f.Field? ==> f.key in Keys(f);
    assert g.Field? ==> g.key in Keys(g);
    if f.Field? {
      AgreeHead(f, g);
      AgreeAligned(f.rest, g.rest);
    }
  }

  // ----- equal values print alike -----

  lemma {:induction false} SamePrints(a: Value, b: Value)
    requires Valid(a) && Valid(b) && Same(a, b)
    ensures Canonical(a) == Canonical(b)
    decreases Size(a), 1
  {
    match a
    case Array(vs) => SameValuesPrint(vs, b.items);
    case Object(f) =>
      var g := b.fields;
      SortFields(f);
      SortFields(g);
      forall k | k in Keys(Sort(f)) ensures Same(Get(Sort(f), k), Get(Sort(g), k)) {}
      AgreeAligned(Sort(f), Sort(g));
      AlignedPrint(Sort(f), Sort(g));
    case _ => {}
  }

  lemma {:induction false} SameValuesPrint(vs: Values, ws: Values)
    requires ValidValues(vs) && ValidValues(ws) && SameValues(vs, ws)
    ensures JoinValues(vs) == JoinValues(ws)
    decreases SizeValues(vs), 0
  {
    if vs.Cons? {
      SamePrints(vs.head, ws.head);
      SameValuesPrint(vs.tail, ws.tail);
    }
  }

  lemma {:induction false} AlignedPrint(f: Fields, g: Fields)
    requires ValidFields(f) && ValidFields(g) && Aligned(f, g)
    ensures JoinFields(f) == JoinFields(g)
    decreases SizeFields(f), 0
  {
    if f.Field? {
      SamePrints(f.value, g.value);
      AlignedPrint(f.rest, g.rest);
    }
  }

  // ----- equal texts come from equal values -----

  datatype Kind = KNull | KTrue | KFalse | KNumber | KString | KArray | KObject | KOther

  function KindOf(v: Value): Kind {
    match v
    case Null => KNull
    case Bool(b) => if b then KTrue else KFalse
    case Number(_) => KNumber
    case Str(_) => KString
    case Array(_) => KArray
    case Object(_) => KObject
  }

  function Lead(c: char): Kind {
    if c == 'n' then KNull else if c == 't' then KTrue else if c == 'f' then KFalse
    else if c == '\"' then KString else if c == '[' then KArray else if c == '{' then KObject
    else if Digit(c) || c == '-' then KNumber else KOther
  }

  // The first character tells the kind of value.
  lemma LeadKind(v: Value)
    requires Valid(v)
    ensures Canonical(v) != "" && Lead(Canonical(v)[0]) == KindOf(v)
  {
  }

  lemma Tail<T>(p: seq<T>, q: seq<T>, x: seq<T>, y: seq<T>)
    requires p + x == q + y && |p| == |q|
    ensures p == q && x == y
  {
    assert p == (p + x)[..|p|] && q == (q + y)[..|q|] && x == (p + x)[|p|..] && y == (q + y)[|q|..];
  }

  function AfterFirst(last: bool, joined: string): string { if last then "" else "," + joined }

  lemma AfterFirstText(last: bool, joined: string, end: string)
    requires end != ""
    ensures var t := AfterFirst(last, joined) + end;
      if last then t == end else t[0] == ',' && t[1..] == joined + end
  {
  }

  // Whether more elements follow, and which text they have, is read in one way only.
  lemma TailsRead(last: bool, j: string, x: string, last': bool, k: string, y: string)
    requires x != "" && y != "" && x[0] != ',' && y[0] != ',' && (last ==> j == "") && (last' ==> k == "")
    requires AfterFirst(last, j) + x == AfterFirst(last', k) + y
    ensures last == last' && j + x == k + y
  {
    AfterFirstText(last, j, x);
    AfterFirstText(last', k, y);
    assert "" + x == x && "" + y == y;
  }

  // A value's text, followed by a delimiter or nothing, is read in one way only.
  lemma {:induction false} Reads(a: Value, b: Value, x: string, y: string)
    requires Valid(a) && Valid(b) && Stop(x) && Stop(y) && Canonical(a) + x == Canonical(b) + y
    ensures Same(a, b) && x == y
    decreases Size(a), 1
  {
    LeadKind(a);
    LeadKind(b);
    assert Canonical(a)[0] == (Canonical(a) + x)[0] && Canonical(b)[0] == (Canonical(b) + y)[0];
    match a
    case Number(t) => NumberReads(t, b.token, x, y);
    case Str(s) => QuoteReads(s, b.text, x, y);
    case Array(vs) =>
      ArrayText(vs, x);
      ArrayText(b.items, y);
      ReadsValues(vs, b.items, x, y);
    case Object(f) =>
      ObjectText(f, x);
      ObjectText(b.fields, y);
      SortFields(f);
      SortFields(b.fields);
      ReadsFields(Sort(f), Sort(b.fields), x, y);
      AlignedAgree(Sort(f), Sort(b.fields));
      assert forall k | k in Keys(f) :: Same(Get(f, k), Get(b.fields, k));
    case _ => Tail(Canonical(a), Canonical(b), x, y);
  }

  lemma ArrayText(vs: Values, x: string)
    ensures (Canonical(Array(vs)) + x)[1..] == JoinValues(vs) + ("]" + x)
  {
  }

  lemma ObjectText(f: Fields, x: string)
    ensures (Canonical(Object(f)) + x)[1..] == JoinFields(Sort(f)) + ("}" + x)
  {
  }

  lemma ConsText(vs: Values, end: string)
    requires vs.Cons? && ValidValues(vs) && end != "" && end[0] == ']'
    ensures JoinValues(vs) + end == Canonical(vs.head) + (TailValues(vs.tail) + end)
    ensures Lead((JoinValues(vs) + end)[0]) == KindOf(vs.head) && Stop(TailValues(vs.tail) + end)
  {
    LeadKind(vs.head);
    assert (JoinValues(vs) + end)[0] == Canonical(vs.head)[0];
  }

  lemma {:induction false} ReadsValues(vs: Values, ws: Values, x: string, y: string)
    requires ValidValues(vs) && ValidValues(ws) && JoinValues(vs) + ("]" + x) == JoinValues(ws) + ("]" + y)
    ensures SameValues(vs, ws) && x == y
    decreases SizeValues(vs), 0
  {
    if vs.Cons? { ConsText(vs, "]" + x); }
    if ws.Cons? { ConsText(ws, "]" + y); }
    if vs.Cons? && ws.Cons? {
      Reads(vs.head, ws.head, TailValues(vs.tail) + ("]" + x), TailValues(ws.tail) + ("]" + y));
      TailsOfValues(vs.tail, ws.tail, x, y);
      ReadsValues(vs.tail, ws.tail, x, y);
    } else {
      assert vs.Nil? && ws.Nil? && JoinValues(vs) + ("]" + x) == "]" + x && JoinValues(ws) + ("]" + y) == "]" + y;
      Tail("]", "]", x, y);
    }
  }

  lemma TailsOfValues(vs: Values, ws: Values, x: string, y: string)
    requires TailValues(vs) + ("]" + x) == TailValues(ws) + ("]" + y)
    ensures vs.Nil? == ws.Nil? && JoinValues(vs) + ("]" + x) == JoinValues(ws) + ("]" + y)
  {
    TailsRead(vs.Nil?, JoinValues(vs), "]" + x, ws.Nil?, JoinValues(ws), "]" + y);
  }

  lemma FieldText(f: Fields, end: string)
    requires f.Field? && end != "" && end[0] == '}'
    ensures JoinFields(f) + end == Quote(f.key) + (":" + (Canonical(f.value) + (TailFields(f.rest) + end)))
    ensures (JoinFields(f) + end)[0] == '\"' && Stop(TailFields(f.rest) + end)
  {
  }

  lemma {:induction false} ReadsFields(f: Fields, g: Fields, x: string, y: string)
    requires ValidFields(f) && ValidFields(g) && JoinFields(f) + ("}" + x) == JoinFields(g) + ("}" + y)
    ensures Aligned(f, g) && x == y
    decreases SizeFields(f), 0
  {
    if f.Field? { FieldText(f, "}" + x); }
    if g.Field? { FieldText(g, "}" + y); }
    if f.Field? && g.Field? {
      var p := Canonical(f.value) + (TailFields(f.rest) + ("}" + x));
      var q := Canonical(g.value) + (TailFields(g.rest) + ("}" + y));
      QuoteReads(f.key, g.key, ":" + p, ":" + q);
      Tail(":", ":", p, q);
      Reads(f.value, g.value, TailFields(f.rest) + ("}" + x), TailFields(g.rest) + ("}" + y));
      TailsOfFields(f.rest, g.rest, x, y);
      ReadsFields(f.rest, g.rest, x, y);
    } else {
      assert f.End? && g.End? && JoinFields(f) + ("}" + x) == "}" + x && JoinFields(g) + ("}" + y) == "}" + y;
      Tail("}", "}", x, y);
    }
  }

  lemma TailsOfFields(f: Fields, g: Fields, x: string, y: string)
    requires TailFields(f) + ("}" + x) == TailFields(g) + ("}" + y)
    ensures f.End? == g.End? && JoinFields(f) + ("}" + x) == JoinFields(g) + ("}" + y)
  {
    TailsRead(f.End?, JoinFields(f), "}" + x, g.End?, JoinFields(g), "}" + y);
  }

  // The text is an identity.
  lemma CanonicalIdentity(a: Value, b: Value)
    requires Valid(a) && Valid(b)
    ensures Canonical(a) == Canonical(b) <==> Same(a, b)
  {
    if Canonical(a) == Canonical(b) { Reads(a, b, "", ""); }
    if Same(a, b) { SamePrints(a, b); }
  }
}
