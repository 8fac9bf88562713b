/** The JSON back end: what it prints is a JSON text (sections 2 to 7 of RFC 8259) and says what
    the tree says, in the compact and in the pretty form. */
module Json {
  import opened Ast
  import Escapes
  import Decimal
  import opened Arithmetic

  // ---------- what is printed ----------

  /** A decimal number: sign, whole part, digits behind the point, power of ten. */
  datatype Number = Number(negative: bool, whole: nat, fraction: string, exponent: Option<int>)

  datatype Float = Finite(number: Number) | Infinite(negative: bool) | NotANumber(negative: bool)

  /** The value of an attribute: an escaped text, a character put between quotes as it is, an
      integer, a float as `%g` prints it, true, or a source position. */
  datatype Value =
    | Text(text: string)
    | Bare(c: char)
    | Integer(n: nat)
    | Real(f: Float)
    | True
    | Position(line: nat, col: nat)

  datatype Attribute = Attribute(key: string, value: Value)

  /** A node with what the back end prints of it: the name of its kind, its attributes, and its
      children, in lists or one by one. */
  datatype Node = Node(kind: string, attributes: List<Attribute>, groups: List<Group>)
  datatype Group = Many(key: string, nodes: List<Node>) | One(key: string, node: Node)

  function Indent(depth: nat): string {
    if depth == 0 then "" else "  " + Indent(depth - 1)
  }

  function IndentIf(pretty: bool, depth: nat): string {
    if pretty then Indent(depth) else ""
  }

  /** A new line in the pretty form. */
  function Gap(pretty: bool, depth: nat): string {
    if pretty then "\n" + Indent(depth) else ""
  }

  function Quoted(s: string): string {
    "\"" + s + "\""
  }

  function Key(key: string): string {
    Quoted(key) + ":"
  }

  function Natural(n: nat): Number {
    Number(false, n, "", None)
  }

  function NumberText(x: Number): string {
    (if x.negative then "-" else "") + (Decimal.Digits(x.whole) + (FractionText(x.fraction) + ExponentText(x.exponent)))
  }

  function FractionText(fraction: string): string {
    if fraction == "" then "" else "." + fraction
  }

  /** An exponent has a sign and at least two digits. */
  function ExponentText(exponent: Option<int>): string {
    match exponent
    case None => ""
    case Some(x) => (if x < 0 then "e-" else "e+") + TwoDigits(Magnitude(x))
  }

  function TwoDigits(n: nat): string {
    if n < 10 then "0" + Decimal.Digits(n) else Decimal.Digits(n)
  }

  function FloatText(f: Float): string {
    match f
    case Finite(x) => NumberText(x)
    case Infinite(negative) => if negative then "-inf" else "inf"
    case NotANumber(negative) => if negative then "-nan" else "nan"
  }

  function ValueText(v: Value): string {
    match v
    case Text(s) => Quoted(Escapes.Escape(s))
    case Bare(c) => Quoted([c])
    case Integer(n) => Decimal.Digits(n)
    case Real(f) => FloatText(f)
    case True => "true"
    case Position(l, c) => "{" + Key("line") + Decimal.Digits(l) + "," + Key("col") + Decimal.Digits(c) + "}"
  }

  /** The attributes, followed by `tail`. */
  function AttributesTo(attributes: List<Attribute>, tail: string): string {
    match attributes
    case Nil => tail
    case Cons(a, rest) => "," + (Key(a.key) + (ValueText(a.value) + AttributesTo(rest, tail)))
  }

  function NodeTo(n: Node, pretty: bool, depth: nat, tail: string): string
    decreases n
  {
    "{" + (Key("node") + (Quoted(n.kind) + AttributesTo(n.attributes, GroupsTo(n.groups, pretty, depth + 1, "}" + tail))))
  }

  function GroupsTo(groups: List<Group>, pretty: bool, depth: nat, tail: string): string
    decreases groups
  {
    match groups
    case Nil => tail
    case Cons(g, rest) => GroupTo(g, pretty, depth, GroupsTo(rest, pretty, depth, tail))
  }

  /** An empty list of children is not printed at all. */
  function GroupTo(g: Group, pretty: bool, depth: nat, tail: string): string
    decreases g
  {
    match g
    case Many(key, nodes) =>
      if nodes.Nil? then tail
      else "," + (Key(key) + (Gap(pretty, depth) + ("[" + (Gap(pretty, 0) +
           ItemsTo(nodes, pretty, depth + 1, true, Gap(pretty, depth) + ("]" + tail))))))
    case One(key, node) =>
      "," + (Gap(pretty, depth) + (Gap(pretty, depth) + (Key(key) + (IndentIf(pretty, depth + 1) + NodeTo(node, pretty, depth + 1, tail)))))
  }

  function Separator(pretty: bool, depth: nat, first: bool): string {
    if first then "" else "," + Gap(pretty, depth)
  }

  function ItemsTo(nodes: List<Node>, pretty: bool, depth: nat, first: bool, tail: string): string
    decreases nodes
  {
    match nodes
    case Nil => tail
    case Cons(n, rest) =>
      Separator(pretty, depth, first) + (IndentIf(pretty, depth) + NodeTo(n, pretty, depth, ItemsTo(rest, pretty, depth, false, tail)))
  }

  // ---------- what it says ----------

  datatype Json =
    | JString(s: string)
    | JNumber(x: Number)
    | JTrue
    | JFalse
    | JNull
    | JArray(items: List<Json>)
    | JObject(members: List<Member>)

  datatype Member = Member(key: string, value: Json)

  /** A float that is no number stands for nothing. */
  function ValueJson(v: Value): Json {
    match v
    case Text(s) => JString(s)
    case Bare(c) => JString([c])
    case Integer(n) => JNumber(Natural(n))
    case Real(f) => if f.Finite? then JNumber(f.number) else JNull
    case True => JTrue
    case Position(l, c) =>
      JObject(Cons(Member("line", JNumber(Natural(l))), Cons(Member("col", JNumber(Natural(c))), Nil)))
  }

  function NodeJson(n: Node): Json
    decreases n
  {
    JObject(Cons(Member("node", JString(n.kind)), AttributesJson(n.attributes, GroupsJson(n.groups))))
  }

  function AttributesJson(attributes: List<Attribute>, more: List<Member>): List<Member> {
    match attributes
    case Nil => more
    case Cons(a, rest) => Cons(Member(a.key, ValueJson(a.value)), AttributesJson(rest, more))
  }

  function GroupsJson(groups: List<Group>): List<Member>
    decreases groups
  {
    match groups
    case Nil => Nil
    case Cons(Many(key, nodes), rest) =>
      if nodes.Nil? then GroupsJson(rest) else Cons(Member(key, JArray(ItemsJson(nodes))), GroupsJson(rest))
    case Cons(One(key, node), rest) => Cons(Member(key, NodeJson(node)), GroupsJson(rest))
  }

  function ItemsJson(nodes: List<Node>): List<Json>
    decreases nodes
  {
    match nodes
    case Nil => Nil
    case Cons(n, rest) => Cons(NodeJson(n), ItemsJson(rest))
  }

  // ---------- reading JSON ----------

  predicate IsSpace(c: char) {
    c == ' ' || c == '\n' || c == '\r' || c == '\t'
  }

  function SkipSpace(s: string): (t: string)
    ensures |t| <= |s|
  {
    if s != "" && IsSpace(s[0]) then SkipSpace(s[1..]) else s
  }

  /** Section 7: what may follow a backslash (`\u` is not read here). */
  function Unescaped(c: char): Option<char> {
    match c
    case '"' => Some('"')
    case '\\' => Some('\\')
    case '/' => Some('/')
    case 'b' => Some(8 as char)
    case 'f' => Some(12 as char)
    case 'n' => Some('\n')
    case 'r' => Some('\r')
    case 't' => Some('\t')
    case _ => None
  }

  type Parsed<T> = Option<(T, string)>

  function Prefixed(c: char, r: Parsed<string>): Parsed<string> {
    if r.None? then None else Some(([c] + r.value.0, r.value.1))
  }

  /** The rest of a string after its opening quote; control characters must be escaped. */
  function ParseString(s: string): (r: Parsed<string>)
    ensures r.Some? ==> |r.value.1| < |s|
    decreases |s|
  {
    if s == "" || s[0] < ' ' then None
    else if s[0] == '"' then Some(("", s[1..]))
    else if s[0] == '\\' then
      if |s| < 2 || Unescaped(s[1]).None? then None else Prefixed(Unescaped(s[1]).value, ParseString(s[2..]))
    else Prefixed(s[0], ParseString(s[1..]))
  }

  function DigitCount(s: string): (n: nat)
    ensures n <= |s| && forall i :: 0 <= i < n ==> Decimal.IsDigit(s[i])
  {
    if s == "" || !Decimal.IsDigit(s[0]) then 0 else 1 + DigitCount(s[1..])
  }

  /** Section 6: an optional minus sign, a whole part in which a leading zero stands alone, an
      optional fraction and an optional exponent. */
  function ParseNumber(s: string): (r: Parsed<Number>)
    ensures r.Some? ==> |r.value.1| < |s|
  {
    if s != "" && s[0] == '-' then ParseWhole(true, s[1..]) else ParseWhole(false, s)
  }

  function ParseWhole(negative: bool, s: string): (r: Parsed<Number>)
    ensures r.Some? ==> |r.value.1| < |s|
  {
    if s == "" || !Decimal.IsDigit(s[0]) then None
    else
      var n := if s[0] == '0' then 1 else DigitCount(s);
      ParseFraction(Number(negative, Decimal.Value(s[..n]), "", None), s[n..])
  }

  function ParseFraction(x: Number, s: string): (r: Parsed<Number>)
    ensures r.Some? ==> |r.value.1| <= |s|
  {
    if s == "" || s[0] != '.' then ParseExponent(x, s)
    else
      var n := DigitCount(s[1..]);
      if n == 0 then None else ParseExponent(x.(fraction := s[1..][..n]), s[1..][n..])
  }

  function ParseExponent(x: Number, s: string): (r: Parsed<Number>)
    ensures r.Some? ==> |r.value.1| <= |s|
  {
    if s == "" || (s[0] != 'e' && s[0] != 'E') then Some((x, s))
    else if |s| > 1 && s[1] == '-' then ParsePower(x, true, s[2..])
    else if |s| > 1 && s[1] == '+' then ParsePower(x, false, s[2..])
    else ParsePower(x, false, s[1..])
  }

  function ParsePower(x: Number, negative: bool, s: string): (r: Parsed<Number>)
    ensures r.Some? ==> |r.value.1| <= |s|
  {
    var n := DigitCount(s);
    if n == 0 then None
    else
      var power: int := Decimal.Value(s[..n]);
      Some((x.(exponent := Some(if negative then -power else power)), s[n..]))
  }

  /** The words of section 3. */
  function ParseWord(s: string): (r: Parsed<Json>)
    ensures r.Some? ==> |r.value.1| < |s|
  {
    if |s| >= 4 && s[..4] == "true" then Some((JTrue, s[4..]))
    else if |s| >= 5 && s[..5] == "false" then Some((JFalse, s[5..]))
    else if |s| >= 4 && s[..4] == "null" then Some((JNull, s[4..]))
    else None
  }

  function ParseValue(s: string): (r: Parsed<Json>)
    ensures r.Some? ==> |r.value.1| < |s|
    decreases |s|, 1
  {
    var t := SkipSpace(s);
    if t == "" then None
    else if t[0] == '"' then
      var r := ParseString(t[1..]);
      if r.None? then None else Some((JString(r.value.0), r.value.1))
    else if t[0] == '{' then
      var u := SkipSpace(t[1..]);
      if u != "" && u[0] == '}' then Some((JObject(Nil), u[1..]))
      else
        var r := ParseMembers(t[1..]);
        if r.None? then None else Some((JObject(r.value.0), r.value.1))
    else if t[0] == '[' then
      var u := SkipSpace(t[1..]);
      if u != "" && u[0] == ']' then Some((JArray(Nil), u[1..]))
      else
        var r := ParseItems(t[1..]);
        if r.None? then None else Some((JArray(r.value.0), r.value.1))
    else if t[0] == '-' || Decimal.IsDigit(t[0]) then
      var r := ParseNumber(t);
      if r.None? then None else Some((JNumber(r.value.0), r.value.1))
    else ParseWord(t)
  }

  /** One member and those after it. */
  function ParseMembers(s: string): (r: Parsed<List<Member>>)
    ensures r.Some? ==> |r.value.1| < |s|
    decreases |s|, 0
  {
    var t := SkipSpace(s);
    if t == "" || t[0] != '"' then None
    else
      var k := ParseString(t[1..]);
      if k.None? then None
      else
        var u := SkipSpace(k.value.1);
        if u == "" || u[0] != ':' then None
        else
          var v := ParseValue(u[1..]);
          if v.None? then None else WithMember(Member(k.value.0, v.value.0), ParseMore(v.value.1))
  }

  function WithMember(m: Member, r: Parsed<List<Member>>): Parsed<List<Member>> {
    if r.None? then None else Some((Cons(m, r.value.0), r.value.1))
  }

  /** The end of an object, or a comma and more members. */
  function ParseMore(s: string): (r: Parsed<List<Member>>)
    ensures r.Some? ==> |r.value.1| < |s|
    decreases |s|, 0
  {
    var t := SkipSpace(s);
    if t == "" then None
    else if t[0] == '}' then Some((Nil, t[1..]))
    else if t[0] == ',' then ParseMembers(t[1..])
    else None
  }

  /** One array element and those after it. */
  function ParseItems(s: string): (r: Parsed<List<Json>>)
    ensures r.Some? ==> |r.value.1| < |s|
    decreases |s|, 2
  {
    var v := ParseValue(s);
    if v.None? then None else WithItem(v.value.0, ParseMoreItems(v.value.1))
  }

  function WithItem(j: Json, r: Parsed<List<Json>>): Parsed<List<Json>> {
    if r.None? then None else Some((Cons(j, r.value.0), r.value.1))
  }

  function ParseMoreItems(s: string): (r: Parsed<List<Json>>)
    ensures r.Some? ==> |r.value.1| < |s|
    decreases |s|, 0
  {
    var t := SkipSpace(s);
    if t == "" then None
    else if t[0] == ']' then Some((Nil, t[1..]))
    else if t[0] == ',' then ParseItems(t[1..])
    else None
  }

  // ---------- which trees print well ----------

  predicate PlainChar(c: char) {
    c >= ' ' && c != '"' && c != '\\'
  }

  predicate Plain(s: string) {
    forall i :: 0 <= i < |s| ==> PlainChar(s[i])
  }

  predicate IsLetter(c: char) {
    'a' <= c <= 'z' || 'A' <= c <= 'Z'
  }

  /** A name the back end itself chooses: it starts with a letter and needs no escape. */
  predicate Chosen(s: string) {
    s != "" && IsLetter(s[0]) && Plain(s)
  }

  /** Every control character in the text is one that is escaped. */
  predicate CleanText(s: string) {
    s == "" || ((s[0] >= ' ' || s[0] == '\n' || s[0] == '\r' || s[0] == '\t') && CleanText(s[1..]))
  }

  predicate CleanValue(v: Value) {
    && (v.Text? ==> CleanText(v.text))
    && (v.Bare? ==> PlainChar(v.c))
    && (v.Real? ==> v.f.Finite?)
  }

  predicate CleanAttributes(attributes: List<Attribute>) {
    attributes.Cons? ==> CleanValue(attributes.head.value) && CleanAttributes(attributes.tail)
  }

  /** No text with a bare control character, no character literal that is a quote, a backslash or
      a control character, and no float that is no number. */
  predicate Clean(n: Node)
    decreases n
  {
    CleanAttributes(n.attributes) && CleanGroups(n.groups)
  }

  predicate CleanGroups(groups: List<Group>)
    decreases groups
  {
    match groups
    case Nil => true
    case Cons(Many(_, nodes), rest) => CleanItems(nodes) && CleanGroups(rest)
    case Cons(One(_, node), rest) => Clean(node) && CleanGroups(rest)
  }

  predicate CleanItems(nodes: List<Node>)
    decreases nodes
  {
    nodes.Cons? ==> Clean(nodes.head) && CleanItems(nodes.tail)
  }

  /** The digits of a fraction are digits. */
  predicate IsNumber(v: Value) {
    v.Real? && v.f.Finite? ==> forall i :: 0 <= i < |v.f.number.fraction| ==> Decimal.IsDigit(v.f.number.fraction[i])
  }

  predicate ChosenAttributes(attributes: List<Attribute>) {
    attributes.Cons? ==>
      Chosen(attributes.head.key) && IsNumber(attributes.head.value) && ChosenAttributes(attributes.tail)
  }

  /** Every tree the back end prints: its keys and kinds are chosen names. */
  predicate Printable(n: Node)
    decreases n
  {
    Chosen(n.kind) && ChosenAttributes(n.attributes) && PrintableGroups(n.groups)
  }

  predicate PrintableGroups(groups: List<Group>)
    decreases groups
  {
    match groups
    case Nil => true
    case Cons(Many(key, nodes), rest) => Chosen(key) && PrintableItems(nodes) && PrintableGroups(rest)
    case Cons(One(key, node), rest) => Chosen(key) && Printable(node) && PrintableGroups(rest)
  }

  predicate PrintableItems(nodes: List<Node>)
    decreases nodes
  {
    nodes.Cons? ==> Printable(nodes.head) && PrintableItems(nodes.tail)
  }

  // ---------- strings and numbers ----------

  lemma {:induction false} PlainReads(s: string, tail: string)
    requires Plain(s)
    ensures ParseString(s + "\"" + tail) == Some((s, tail))
    decreases |s|
  {
    var all := s + "\"" + tail;
    if s == "" {
      assert all[1..] == tail;
    } else {
      PlainReads(s[1..], tail);
      assert all[1..] == s[1..] + "\"" + tail && s == [s[0]] + s[1..];
    }
  }

  lemma {:induction false} EscapedReads(s: string, tail: string)
    ensures ParseString(Escapes.Escape(s) + "\"" + tail) == if CleanText(s) then Some((s, tail)) else None
    decreases |s|
  {
    var all := Escapes.Escape(s) + "\"" + tail;
    if s == "" {
      assert all[1..] == tail;
    } else {
      var c := Escapes.EscapeChar(s[0]);
      var rest := Escapes.Escape(s[1..]) + "\"" + tail;
      EscapedReads(s[1..], tail);
      assert all == c + rest && all[|c|..] == rest && s == [s[0]] + s[1..];
      assert |c| == 2 ==> all[1] == c[1] && Unescaped(c[1]) == Some(s[0]);
    }
  }

  /** The tail could still belong to a number before it. */
  predicate GoesOn(s: string) {
    s != "" && (Decimal.IsDigit(s[0]) || s[0] == '.' || s[0] == 'e' || s[0] == 'E')
  }

  lemma {:induction false} DigitsCounted(d: string, tail: string)
    requires forall i :: 0 <= i < |d| ==> Decimal.IsDigit(d[i])
    requires tail == "" || !Decimal.IsDigit(tail[0])
    ensures DigitCount(d + tail) == |d| && (d + tail)[..|d|] == d && (d + tail)[|d|..] == tail
    decreases |d|
  {
    if d == "" {
      assert d + tail == tail;
    } else {
      assert (d + tail)[1..] == d[1..] + tail;
      DigitsCounted(d[1..], tail);
    }
  }

  lemma TwoDigitsReadBack(n: nat)
    ensures var d := TwoDigits(n); d != "" && (forall i :: 0 <= i < |d| ==> Decimal.IsDigit(d[i])) && Decimal.Value(d) == n
  {
    Decimal.DigitsReadBack(n);
    if n < 10 {
      var d := Decimal.Digits(n);
      assert d[..0] == "" && ("0" + d)[..1] == "0" && "0"[..0] == "";
      assert Decimal.Value("0") == 0;
    }
  }

  lemma ExponentReads(x: Number, exponent: Option<int>, tail: string)
    requires x.exponent.None? && !GoesOn(tail)
    ensures ParseExponent(x, ExponentText(exponent) + tail) == Some((x.(exponent := exponent), tail))
  {
    match exponent
    case None => assert "" + tail == tail;
    case Some(power) =>
      var d := TwoDigits(Magnitude(power));
      TwoDigitsReadBack(Magnitude(power));
      DigitsCounted(d, tail);
      assert (ExponentText(exponent) + tail)[2..] == d + tail;
  }

  lemma FractionReads(x: Number, fraction: string, tail: string)
    requires x.fraction == "" && (forall i :: 0 <= i < |fraction| ==> Decimal.IsDigit(fraction[i]))
    requires tail == "" || (!Decimal.IsDigit(tail[0]) && tail[0] != '.')
    ensures ParseFraction(x, FractionText(fraction) + tail) == ParseExponent(x.(fraction := fraction), tail)
  {
    if fraction == "" {
      assert "" + tail == tail;
    } else {
      DigitsCounted(fraction, tail);
      assert ("." + fraction + tail)[1..] == fraction + tail;
    }
  }

  lemma NumberReads(x: Number, tail: string)
    requires (forall i :: 0 <= i < |x.fraction| ==> Decimal.IsDigit(x.fraction[i])) && !GoesOn(tail)
    ensures ParseNumber(NumberText(x) + tail) == Some((x, tail))
    ensures var c := NumberText(x)[0]; c == '-' || Decimal.IsDigit(c)
  {
    var whole, end := Decimal.Digits(x.whole), ExponentText(x.exponent) + tail;
    var rest := FractionText(x.fraction) + end;
    var y := Number(x.negative, x.whole, "", None);
    WholeReads(x.negative, x.whole, rest);
    FractionReads(y, x.fraction, end);
    ExponentReads(y.(fraction := x.fraction), x.exponent, tail);
    NumberInParts(x, tail);
    assert ("-" + (whole + rest))[1..] == whole + rest;
    assert !x.negative ==> (whole + rest)[0] == whole[0];
  }

  lemma NumberInParts(x: Number, tail: string)
    ensures var unsigned := Decimal.Digits(x.whole) + (FractionText(x.fraction) + (ExponentText(x.exponent) + tail));
      NumberText(x) + tail == if x.negative then "-" + unsigned else unsigned
    ensures NumberText(x)[0] == if x.negative then '-' else Decimal.Digits(x.whole)[0]
  {
    var whole, fraction, exponent := Decimal.Digits(x.whole), FractionText(x.fraction), ExponentText(x.exponent);
    Join3(fraction, exponent, tail);
    Join3(whole, fraction + exponent, tail);
    if x.negative {
      Join3("-", whole + (fraction + exponent), tail);
    } else {
      assert "" + (whole + (fraction + exponent)) == whole + (fraction + exponent);
    }
  }

  lemma WholeReads(negative: bool, whole: nat, rest: string)
    requires rest == "" || !Decimal.IsDigit(rest[0])
    ensures ParseWhole(negative, Decimal.Digits(whole) + rest) == ParseFraction(Number(negative, whole, "", None), rest)
  {
    DigitsCounted(Decimal.Digits(whole), rest);
    Decimal.DigitsReadBack(whole);
  }

  lemma NumberValueReads(x: Number, tail: string)
    requires (forall i :: 0 <= i < |x.fraction| ==> Decimal.IsDigit(x.fraction[i])) && !GoesOn(tail)
    ensures ParseValue(NumberText(x) + tail) == Some((JNumber(x), tail))
  {
    NumberReads(x, tail);
  }

  lemma NaturalValueReads(n: nat, tail: string)
    requires !GoesOn(tail)
    ensures ParseValue(Decimal.Digits(n) + tail) == Some((JNumber(Natural(n)), tail))
  {
    NumberValueReads(Natural(n), tail);
    assert "" + (Decimal.Digits(n) + ("" + "")) == Decimal.Digits(n);
  }

  lemma NoNumberReads(f: Float, tail: string)
    requires !f.Finite?
    ensures ParseValue(FloatText(f) + tail).None?
  {
    var all := FloatText(f) + tail;
    if all[0] == '-' {
      assert all[1] == 'i' || all[1] == 'n';
    } else {
      assert all[0] == 'i' || all[1] == 'a';
      assert |all| >= 4 ==> all[..4][1] == all[1] && all[..4][0] == all[0];
    }
  }

  // ---------- white space ----------

  lemma {:induction false} IndentIsSpace(depth: nat, t: string)
    ensures SkipSpace(Indent(depth) + t) == SkipSpace(t)
  {
    if depth == 0 {
      assert Indent(0) + t == t;
    } else {
      var more := Indent(depth - 1) + t;
      assert Indent(depth) + t == "  " + more && ("  " + more)[1..] == " " + more && (" " + more)[1..] == more;
      IndentIsSpace(depth - 1, t);
    }
  }

  lemma GapIsSpace(pretty: bool, depth: nat, t: string)
    ensures SkipSpace(Gap(pretty, depth) + t) == SkipSpace(t)
    ensures SkipSpace(IndentIf(pretty, depth) + t) == SkipSpace(t)
  {
    IndentIsSpace(depth, t);
    if pretty {
      assert (Gap(pretty, depth) + t)[1..] == Indent(depth) + t;
    } else {
      assert "" + t == t;
    }
  }

  /** Leading white space makes no difference to a reader. */
  lemma SameFromSpace(s: string, t: string)
    requires SkipSpace(s) == SkipSpace(t)
    ensures ParseValue(s) == ParseValue(t) && ParseMembers(s) == ParseMembers(t)
    ensures ParseMore(s) == ParseMore(t) && ParseMoreItems(s) == ParseMoreItems(t) && ParseItems(s) == ParseItems(t)
  {
  }

  lemma GapUnread(pretty: bool, depth: nat, t: string)
    ensures var s := Gap(pretty, depth) + t;
      ParseValue(s) == ParseValue(t) && ParseMembers(s) == ParseMembers(t) && ParseMore(s) == ParseMore(t) &&
      ParseMoreItems(s) == ParseMoreItems(t) && ParseItems(s) == ParseItems(t)
    ensures ParseValue(IndentIf(pretty, depth) + t) == ParseValue(t) && ParseItems(IndentIf(pretty, depth) + t) == ParseItems(t)
  {
    GapIsSpace(pretty, depth, t);
    SameFromSpace(Gap(pretty, depth) + t, t);
    SameFromSpace(IndentIf(pretty, depth) + t, t);
  }

  // ---------- members ----------

  lemma KeyReads(key: string, t: string)
    requires Plain(key)
    ensures ParseMembers(Key(key) + t) ==
            var v := ParseValue(t); if v.None? then None else WithMember(Member(key, v.value.0), ParseMore(v.value.1))
  {
    var s := Key(key) + t;
    assert s[1..] == key + "\"" + (":" + t);
    PlainReads(key, ":" + t);
    assert (":" + t)[1..] == t;
  }

  lemma CommaReads(t: string)
    ensures ParseMore("," + t) == ParseMembers(t) && ParseMoreItems("," + t) == ParseItems(t)
  {
    assert ("," + t)[1..] == t;
  }

  lemma CloseReads(tail: string)
    ensures ParseMore("}" + tail) == Some((Nil, tail)) && ParseMoreItems("]" + tail) == Some((Nil, tail))
  {
    assert ("}" + tail)[1..] == tail && ("]" + tail)[1..] == tail;
  }

  lemma PositionReads(l: nat, c: nat, tail: string)
    ensures ParseValue(ValueText(Position(l, c)) + tail) == Some((ValueJson(Position(l, c)), tail))
  {
    var end := "}" + tail;
    var col := Key("col") + (Decimal.Digits(c) + end);
    var line := Key("line") + (Decimal.Digits(l) + ("," + col));
    assert ValueText(Position(l, c)) + tail == "{" + line && ("{" + line)[1..] == line;
    CloseReads(tail);
    LastNumberReads("col", c, end);
    CommaReads(col);
    LastNumberReads("line", l, "," + col);
  }

  lemma LastNumberReads(key: string, n: nat, tail: string)
    requires Plain(key) && !GoesOn(tail)
    ensures ParseMembers(Key(key) + (Decimal.Digits(n) + tail)) == WithMember(Member(key, JNumber(Natural(n))), ParseMore(tail))
  {
    NaturalValueReads(n, tail);
    KeyReads(key, Decimal.Digits(n) + tail);
  }

  /** A string that is opened by mistake at `s` fails, or ends just before a chosen name. */
  predicate Derails(s: string) {
    var r := ParseString(s);
    r.None? || (r.value.1 != "" && IsLetter(r.value.1[0]))
  }

  lemma DerailsBefore(c: char, s: string)
    requires Derails(s) && PlainChar(c)
    ensures Derails([c] + s)
  {
    assert ([c] + s)[1..] == s;
  }

  lemma DerailsAtName(name: string, t: string)
    requires Chosen(name)
    ensures Derails("\"" + (name + t))
  {
    assert ("\"" + (name + t))[1..] == name + t;
  }

  lemma DerailsAtGap(pretty: bool, depth: nat, t: string)
    requires pretty || Derails(t)
    ensures Derails(Gap(pretty, depth) + t)
  {
    if !pretty {
      assert "" + t == t;
    }
  }

  lemma AttributeReads(a: Attribute, tail: string)
    requires Chosen(a.key) && IsNumber(a.value) && !GoesOn(tail)
    ensures var r := ParseMembers(Key(a.key) + (ValueText(a.value) + tail));
      && (CleanValue(a.value) ==> r == WithMember(Member(a.key, ValueJson(a.value)), ParseMore(tail)))
      && (!CleanValue(a.value) && Derails(tail) ==> r.None?)
  {
    KeyReads(a.key, ValueText(a.value) + tail);
    match a.value
    case Text(s) => TextReads(s, tail);
    case Bare(c) => BareReads(a.key, c, tail);
    case Integer(n) => NaturalValueReads(n, tail);
    case Real(f) =>
      if f.Finite? {
        NumberValueReads(f.number, tail);
      } else {
        NoNumberReads(f, tail);
      }
    case True => assert ("true" + tail)[..4] == "true" && ("true" + tail)[4..] == tail;
    case Position(l, c) => PositionReads(l, c, tail);
  }

  lemma TextReads(s: string, tail: string)
    ensures ParseValue(ValueText(Text(s)) + tail) == if CleanText(s) then Some((JString(s), tail)) else None
  {
    assert (ValueText(Text(s)) + tail)[1..] == Escapes.Escape(s) + "\"" + tail;
    EscapedReads(s, tail);
  }

  /** A quote ends the string too early, a control character is not allowed, and a backslash takes
      the closing quote for a part of the string, which then ends before the next name. */
  lemma BareReads(key: string, c: char, tail: string)
    requires Chosen(key)
    ensures var r := ParseMembers(Key(key) + (ValueText(Bare(c)) + tail));
      && (PlainChar(c) ==> r == WithMember(Member(key, JString([c])), ParseMore(tail)))
      && (!PlainChar(c) && Derails(tail) ==> r.None?)
  {
    var t := ValueText(Bare(c)) + tail;
    KeyReads(key, t);
    assert t[1..] == [c] + "\"" + tail;
    if PlainChar(c) {
      PlainReads([c], tail);
    } else if c == '"' {
      assert t[1..][1..] == "\"" + tail;
    } else if c == '\\' {
      assert t[1..][2..] == tail;
      assert ParseString(t[1..]) == Prefixed('"', ParseString(tail));
    }
  }

  function WithAttributes(attributes: List<Attribute>, r: Parsed<List<Member>>): Parsed<List<Member>> {
    if r.None? then None else Some((AttributesJson(attributes, r.value.0), r.value.1))
  }

  lemma {:induction false} AttributesRead(attributes: List<Attribute>, tail: string)
    requires ChosenAttributes(attributes) && !GoesOn(tail)
    ensures var r := ParseMore(AttributesTo(attributes, tail));
      && (CleanAttributes(attributes) ==> r == WithAttributes(attributes, ParseMore(tail)))
      && (!CleanAttributes(attributes) && Derails(tail) ==> r.None?)
    ensures !GoesOn(AttributesTo(attributes, tail)) && (Derails(tail) ==> Derails(AttributesTo(attributes, tail)))
    decreases attributes
  {
    match attributes
    case Nil =>
    case Cons(a, rest) =>
      AttributesRead(rest, tail);
      var more := AttributesTo(rest, tail);
      AttributeReads(a, more);
      var value := ValueText(a.value) + more;
      CommaReads(Key(a.key) + value);
      CommaDerails(a.key, value);
  }

  lemma CommaDerails(key: string, t: string)
    requires Chosen(key)
    ensures Derails("," + (Key(key) + t))
  {
    DerailsAtName(key, "\":" + t);
    assert Key(key) + t == "\"" + (key + ("\":" + t));
    DerailsBefore(',', Key(key) + t);
  }

  // ---------- nodes ----------

  /** The printed node is JSON if and only if the tree is clean, and then it says what the tree
      says; for a tree that is not, what follows must not look like the rest of a string. */
  lemma {:induction false} NodeReads(n: Node, pretty: bool, depth: nat, tail: string)
    requires Printable(n)
    ensures var r := ParseValue(NodeTo(n, pretty, depth, tail));
      (Clean(n) ==> r == Some((NodeJson(n), tail))) && (!Clean(n) && Derails(tail) ==> r.None?)
    ensures NodeTo(n, pretty, depth, tail)[0] == '{' && Derails(NodeTo(n, pretty, depth, tail))
    decreases n, 1
  {
    var groups := GroupsTo(n.groups, pretty, depth + 1, "}" + tail);
    GroupsRead(n.groups, pretty, depth + 1, tail);
    AttributesRead(n.attributes, groups);
    var more := AttributesTo(n.attributes, groups);
    var body := Key("node") + (Quoted(n.kind) + more);
    KindReads(n.kind, more);
    ObjectReads(body);
    NodeDerails(Quoted(n.kind) + more);
  }

  lemma NodeDerails(t: string)
    ensures Derails("{" + (Key("node") + t))
  {
    DerailsAtName("node", "\":" + t);
    assert Key("node") + t == "\"" + ("node" + ("\":" + t));
    DerailsBefore('{', Key("node") + t);
  }

  lemma KindReads(kind: string, more: string)
    requires Plain(kind)
    ensures ParseMembers(Key("node") + (Quoted(kind) + more)) == WithMember(Member("node", JString(kind)), ParseMore(more))
  {
    var t := Quoted(kind) + more;
    assert t[1..] == kind + "\"" + more;
    PlainReads(kind, more);
    KeyReads("node", t);
  }

  lemma {:induction false} GroupsRead(groups: List<Group>, pretty: bool, depth: nat, tail: string)
    requires PrintableGroups(groups)
    ensures var s := GroupsTo(groups, pretty, depth, "}" + tail);
      && (CleanGroups(groups) ==> ParseMore(s) == Some((GroupsJson(groups), tail)))
      && (!CleanGroups(groups) && Derails(tail) ==> ParseMore(s).None?)
      && !GoesOn(s) && (Derails(tail) ==> Derails(s))
    decreases groups
  {
    match groups
    case Nil =>
      CloseReads(tail);
      if Derails(tail) {
        DerailsBefore('}', tail);
      }
    case Cons(g, rest) =>
      GroupsRead(rest, pretty, depth, tail);
      GroupReads(g, pretty, depth, GroupsTo(rest, pretty, depth, "}" + tail));
      match g
      case Many(_, nodes) => assert nodes.Nil? ==> CleanItems(nodes);
      case One(_, _) =>
  }

  lemma {:induction false} GroupReads(g: Group, pretty: bool, depth: nat, tail: string)
    requires PrintableGroups(Cons(g, Nil)) && !GoesOn(tail)
    ensures var s := GroupTo(g, pretty, depth, tail);
      match g
      case Many(key, nodes) =>
        if nodes.Nil? then s == tail
        else
          && (CleanItems(nodes) ==> ParseMore(s) == WithMember(Member(key, JArray(ItemsJson(nodes))), ParseMore(tail)))
          && (!CleanItems(nodes) && Derails(tail) ==> ParseMore(s).None?)
      case One(key, node) =>
        && (Clean(node) ==> ParseMore(s) == WithMember(Member(key, NodeJson(node)), ParseMore(tail)))
        && (!Clean(node) && Derails(tail) ==> ParseMore(s).None?)
    ensures !GoesOn(GroupTo(g, pretty, depth, tail)) && (Derails(tail) ==> Derails(GroupTo(g, pretty, depth, tail)))
    decreases g
  {
    match g
    case Many(key, nodes) =>
      if nodes.Cons? {
        var items := ItemsTo(nodes, pretty, depth + 1, true, Gap(pretty, depth) + ("]" + tail));
        ArrayReads(nodes, pretty, depth, tail);
        var inside := "[" + (Gap(pretty, 0) + items);
        GapUnread(pretty, depth, inside);
        KeyReads(key, Gap(pretty, depth) + inside);
        CommaReads(Key(key) + (Gap(pretty, depth) + inside));
        CommaDerails(key, Gap(pretty, depth) + inside);
      }
    case One(key, node) =>
      NodeReads(node, pretty, depth + 1, tail);
      OneReads(key, pretty, depth, NodeTo(node, pretty, depth + 1, tail));
  }

  /** A comma, a gap, another gap, a key and an indented value. */
  lemma OneReads(key: string, pretty: bool, depth: nat, t: string)
    requires Chosen(key)
    ensures var s := "," + (Gap(pretty, depth) + (Gap(pretty, depth) + (Key(key) + (IndentIf(pretty, depth + 1) + t))));
      var v := ParseValue(t);
      && ParseMore(s) == (if v.None? then None else WithMember(Member(key, v.value.0), ParseMore(v.value.1)))
      && Derails(s)
  {
    var gap, value := Gap(pretty, depth), IndentIf(pretty, depth + 1) + t;
    GapUnread(pretty, depth + 1, t);
    KeyReads(key, value);
    GapUnread(pretty, depth, Key(key) + value);
    GapUnread(pretty, depth, gap + (Key(key) + value));
    CommaReads(gap + (gap + (Key(key) + value)));
    OneDerails(key, pretty, depth, value);
  }

  lemma OneDerails(key: string, pretty: bool, depth: nat, value: string)
    requires Chosen(key)
    ensures Derails("," + (Gap(pretty, depth) + (Gap(pretty, depth) + (Key(key) + value))))
  {
    var gap := Gap(pretty, depth);
    DerailsAtName(key, "\":" + value);
    assert Key(key) + value == "\"" + (key + ("\":" + value));
    DerailsAtGap(pretty, depth, Key(key) + value);
    DerailsAtGap(pretty, depth, gap + (Key(key) + value));
    DerailsBefore(',', gap + (gap + (Key(key) + value)));
  }

  lemma ObjectReads(body: string)
    requires body != "" && body[0] == '"'
    ensures ParseValue("{" + body) == var r := ParseMembers(body); if r.None? then None else Some((JObject(r.value.0), r.value.1))
  {
    assert ("{" + body)[1..] == body;
  }

  lemma ArrayOpens(inside: string)
    requires var t := SkipSpace(inside); t != "" && t[0] != ']'
    ensures ParseValue("[" + inside) == var r := ParseItems(inside); if r.None? then None else Some((JArray(r.value.0), r.value.1))
  {
    assert ("[" + inside)[1..] == inside;
  }

  lemma FirstItemReads(pretty: bool, depth: nat, node: string)
    requires node != "" && node[0] == '{'
    ensures ParseValue("[" + (Gap(pretty, 0) + (Separator(pretty, depth, true) + (IndentIf(pretty, depth) + node)))) ==
            var r := ParseItems(node); if r.None? then None else Some((JArray(r.value.0), r.value.1))
  {
    var item := IndentIf(pretty, depth) + node;
    assert Separator(pretty, depth, true) + item == item;
    GapIsSpace(pretty, depth, node);
    GapIsSpace(pretty, 0, item);
    SameFromSpace(Gap(pretty, 0) + item, node);
    ArrayOpens(Gap(pretty, 0) + item);
  }

  lemma NextItemReads(pretty: bool, depth: nat, node: string)
    ensures ParseMoreItems(Separator(pretty, depth, false) + (IndentIf(pretty, depth) + node)) == ParseItems(node)
  {
    var item := IndentIf(pretty, depth) + node;
    assert Separator(pretty, depth, false) + item == "," + (Gap(pretty, depth) + item);
    CommaReads(Gap(pretty, depth) + item);
    GapUnread(pretty, depth, item);
    GapUnread(pretty, depth, node);
  }

  lemma SeparatorInParts(pretty: bool, depth: nat, first: bool, t: string)
    ensures Separator(pretty, depth, first) + t == if first then t else "," + (Gap(pretty, depth) + t)
  {
  }

  /** A list of children, from its opening bracket. */
  lemma {:induction false} ArrayReads(nodes: List<Node>, pretty: bool, depth: nat, tail: string)
    requires PrintableItems(nodes) && nodes.Cons?
    ensures var r := ParseValue("[" + (Gap(pretty, 0) + ItemsTo(nodes, pretty, depth + 1, true, Gap(pretty, depth) + ("]" + tail))));
      && (CleanItems(nodes) ==> r == Some((JArray(ItemsJson(nodes)), tail)))
      && (!CleanItems(nodes) && Derails(tail) ==> r.None?)
    decreases nodes, 2
  {
    var rest := ItemsTo(nodes.tail, pretty, depth + 1, false, Gap(pretty, depth) + ("]" + tail));
    NodeReads(nodes.head, pretty, depth + 1, rest);
    ItemsRead(nodes.tail, pretty, depth, tail);
    FirstItemReads(pretty, depth + 1, NodeTo(nodes.head, pretty, depth + 1, rest));
  }

  lemma {:induction false} ItemsRead(nodes: List<Node>, pretty: bool, depth: nat, tail: string)
    requires PrintableItems(nodes)
    ensures var s := ItemsTo(nodes, pretty, depth + 1, false, Gap(pretty, depth) + ("]" + tail));
      && (CleanItems(nodes) ==> ParseMoreItems(s) == Some((ItemsJson(nodes), tail)))
      && (!CleanItems(nodes) && Derails(tail) ==> ParseMoreItems(s).None?)
      && (Derails(tail) ==> Derails(s))
    decreases nodes, 1
  {
    match nodes
    case Nil =>
      CloseReads(tail);
      GapUnread(pretty, depth, "]" + tail);
      if Derails(tail) {
        DerailsBefore(']', tail);
        DerailsAtGap(pretty, depth, "]" + tail);
      }
    case Cons(n, more) =>
      var rest := ItemsTo(more, pretty, depth + 1, false, Gap(pretty, depth) + ("]" + tail));
      NodeReads(n, pretty, depth + 1, rest);
      ItemsRead(more, pretty, depth, tail);
      NextItemReads(pretty, depth + 1, NodeTo(n, pretty, depth + 1, rest));
      NextItemDerails(pretty, depth + 1, NodeTo(n, pretty, depth + 1, rest));
  }

  lemma NextItemDerails(pretty: bool, depth: nat, node: string)
    requires Derails(node)
    ensures Derails(Separator(pretty, depth, false) + (IndentIf(pretty, depth) + node))
  {
    var item := IndentIf(pretty, depth) + node;
    if !pretty {
      assert item == node;
    }
    DerailsAtGap(pretty, depth, item);
    DerailsBefore(',', Gap(pretty, depth) + item);
    assert Separator(pretty, depth, false) + item == "," + (Gap(pretty, depth) + item);
  }

  // ---------- documents ----------

  /** The whole output for a tree. */
  function Document(n: Node, pretty: bool): string {
    NodeTo(n, pretty, 0, "\n")
  }

  /** Section 2: one value, with nothing but white space around it. */
  function ParseDocument(s: string): Option<Json> {
    var r := ParseValue(s);
    if r.None? || SkipSpace(r.value.1) != "" then None else Some(r.value.0)
  }

  /** The output is a JSON text if and only if the tree is clean; it then says what the tree says,
      in the compact and in the pretty form alike. */
  lemma DocumentReads(n: Node, pretty: bool)
    requires Printable(n)
    ensures ParseDocument(Document(n, pretty)) == if Clean(n) then Some(NodeJson(n)) else None
  {
    assert Derails("\n") && "\n"[1..] == "";
    NodeReads(n, pretty, 0, "\n");
  }

  // ---------- printing, step by step ----------

  lemma Join3(a: string, b: string, c: string)
    ensures a + b + c == a + (b + c)
  {
  }

  lemma Join4(a: string, b: string, c: string, d: string)
    ensures a + b + c + d == a + (b + (c + d))
  {
    Join3(a, b, c);
    Join3(a, b + c, d);
    Join3(b, c, d);
  }

  lemma Join5(a: string, b: string, c: string, d: string, e: string)
    ensures a + b + c + d + e == a + (b + (c + (d + e)))
  {
    Join4(a, b, c, d);
    Join3(a, b + (c + d), e);
    Join3(b, c + d, e);
    Join3(c, d, e);
  }

  function AttributeText(a: Attribute): string {
    "," + Key(a.key) + ValueText(a.value)
  }

  lemma {:induction false} AttributesAppend(attributes: List<Attribute>, t: string)
    ensures AttributesTo(attributes, t) == AttributesTo(attributes, "") + t
    ensures attributes.Cons? ==> AttributesTo(attributes, t) == AttributeText(attributes.head) + AttributesTo(attributes.tail, t)
    decreases attributes
  {
    match attributes
    case Nil => assert "" + t == t;
    case Cons(a, rest) =>
      AttributesAppend(rest, t);
      Join4(",", Key(a.key), ValueText(a.value), AttributesTo(rest, t));
      Join4(",", Key(a.key), ValueText(a.value), AttributesTo(rest, ""));
      Join3(AttributeText(a), AttributesTo(rest, ""), t);
  }

  function NodeHead(n: Node): string {
    "{" + Key("node") + Quoted(n.kind)
  }

  lemma {:induction false} NodeAppend(n: Node, pretty: bool, depth: nat, t: string)
    ensures NodeTo(n, pretty, depth, t) == NodeTo(n, pretty, depth, "") + t
    ensures NodeTo(n, pretty, depth, t) ==
            NodeHead(n) + (AttributesTo(n.attributes, "") + (GroupsTo(n.groups, pretty, depth + 1, "") + ("}" + t)))
    decreases n, 1
  {
    NodeInParts(n, pretty, depth, t);
    NodeInParts(n, pretty, depth, "");
    var a, g := AttributesTo(n.attributes, ""), GroupsTo(n.groups, pretty, depth + 1, "");
    assert "}" + "" == "}";
    Join5(NodeHead(n), a, g, "}", t);
    Join4(NodeHead(n), a, g, "}");
  }

  lemma {:induction false} NodeInParts(n: Node, pretty: bool, depth: nat, t: string)
    ensures NodeTo(n, pretty, depth, t) ==
            NodeHead(n) + (AttributesTo(n.attributes, "") + (GroupsTo(n.groups, pretty, depth + 1, "") + ("}" + t)))
    decreases n, 0
  {
    GroupsAppend(n.groups, pretty, depth + 1, "}" + t);
    AttributesAppend(n.attributes, GroupsTo(n.groups, pretty, depth + 1, "}" + t));
    Join4("{", Key("node"), Quoted(n.kind), AttributesTo(n.attributes, GroupsTo(n.groups, pretty, depth + 1, "}" + t)));
  }

  lemma {:induction false} GroupsAppend(groups: List<Group>, pretty: bool, depth: nat, t: string)
    ensures GroupsTo(groups, pretty, depth, t) == GroupsTo(groups, pretty, depth, "") + t
    decreases groups
  {
    match groups
    case Nil => assert "" + t == t;
    case Cons(g, rest) =>
      var more := GroupsTo(rest, pretty, depth, "");
      GroupsAppend(rest, pretty, depth, t);
      GroupAppend(g, pretty, depth, more);
      GroupAppend(g, pretty, depth, more + t);
      Join3(GroupTo(g, pretty, depth, ""), more, t);
  }

  function ManyHead(key: string, pretty: bool, depth: nat): string {
    "," + Key(key) + Gap(pretty, depth) + "[" + Gap(pretty, 0)
  }

  function OneHead(key: string, pretty: bool, depth: nat): string {
    "," + Gap(pretty, depth) + Gap(pretty, depth) + Key(key) + IndentIf(pretty, depth + 1)
  }

  lemma {:induction false} GroupAppend(g: Group, pretty: bool, depth: nat, t: string)
    ensures GroupTo(g, pretty, depth, t) == GroupTo(g, pretty, depth, "") + t
    decreases g, 1
  {
    match g
    case Many(key, nodes) =>
      if nodes.Nil? {
        assert "" + t == t;
      } else {
        ManyInParts(key, nodes, pretty, depth, t);
        ManyInParts(key, nodes, pretty, depth, "");
        var head, items, gap := ManyHead(key, pretty, depth), ItemsTo(nodes, pretty, depth + 1, true, ""), Gap(pretty, depth);
        assert "]" + "" == "]";
        Join5(head, items, gap, "]", t);
        Join4(head, items, gap, "]");
      }
    case One(key, node) =>
      OneInParts(key, node, pretty, depth, t);
      OneInParts(key, node, pretty, depth, "");
      NodeAppend(node, pretty, depth + 1, t);
      Join3(OneHead(key, pretty, depth), NodeTo(node, pretty, depth + 1, ""), t);
  }

  lemma {:induction false} ManyInParts(key: string, nodes: List<Node>, pretty: bool, depth: nat, t: string)
    requires nodes.Cons?
    ensures GroupTo(Many(key, nodes), pretty, depth, t) ==
            ManyHead(key, pretty, depth) + (ItemsTo(nodes, pretty, depth + 1, true, "") + (Gap(pretty, depth) + ("]" + t)))
    decreases nodes, 1
  {
    var end := Gap(pretty, depth) + ("]" + t);
    ItemsAppend(nodes, pretty, depth + 1, true, end);
    var items := ItemsTo(nodes, pretty, depth + 1, true, end);
    Join5(",", Key(key), Gap(pretty, depth), "[", Gap(pretty, 0) + items);
    Join3("," + Key(key) + Gap(pretty, depth) + "[", Gap(pretty, 0), items);
  }

  lemma OneInParts(key: string, node: Node, pretty: bool, depth: nat, t: string)
    ensures GroupTo(One(key, node), pretty, depth, t) == OneHead(key, pretty, depth) + NodeTo(node, pretty, depth + 1, t)
  {
    var gap, value := Gap(pretty, depth), NodeTo(node, pretty, depth + 1, t);
    Join5(",", gap, gap, Key(key), IndentIf(pretty, depth + 1) + value);
    Join3("," + gap + gap + Key(key), IndentIf(pretty, depth + 1), value);
  }

  function ItemHead(pretty: bool, depth: nat, first: bool): string {
    Separator(pretty, depth, first) + IndentIf(pretty, depth)
  }

  lemma {:induction false} ItemsAppend(nodes: List<Node>, pretty: bool, depth: nat, first: bool, t: string)
    ensures ItemsTo(nodes, pretty, depth, first, t) == ItemsTo(nodes, pretty, depth, first, "") + t
    ensures nodes.Cons? ==> ItemsTo(nodes, pretty, depth, first, t) ==
                            ItemHead(pretty, depth, first) + NodeTo(nodes.head, pretty, depth, "") +
                            ItemsTo(nodes.tail, pretty, depth, false, t)
    decreases nodes, 0
  {
    match nodes
    case Nil => assert "" + t == t;
    case Cons(n, rest) =>
      var more, head, node := ItemsTo(rest, pretty, depth, false, ""), ItemHead(pretty, depth, first), NodeTo(n, pretty, depth, "");
      ItemsAppend(rest, pretty, depth, false, t);
      NodeAppend(n, pretty, depth, more);
      NodeAppend(n, pretty, depth, more + t);
      Join4(Separator(pretty, depth, first), IndentIf(pretty, depth), node, more);
      Join4(Separator(pretty, depth, first), IndentIf(pretty, depth), node, more + t);
      Join3(head + node, more, t);
  }

  method EmitIndent(e: Escapes.Emitter, depth: nat)
    modifies e
    ensures e.text == old(e.text) + Indent(depth)
  {
    assert e.text + "" == e.text;
    var left := depth;
    while left > 0
      invariant e.text + Indent(left) == old(e.text) + Indent(depth)
    {
      e.Emit("  ");
      left := left - 1;
    }
    assert e.text + "" == e.text;
  }

  method EmitGap(e: Escapes.Emitter, pretty: bool, depth: nat)
    modifies e
    ensures e.text == old(e.text) + Gap(pretty, depth)
  {
    if pretty {
      e.Emit("\n");
      EmitIndent(e, depth);
    }
  }

  /** Nothing before the first element of a list, a comma before the others. */
  method EmitSeparator(e: Escapes.Emitter, pretty: bool, depth: nat, first: bool) returns (now: bool)
    modifies e
    ensures !now && e.text == old(e.text) + Separator(pretty, depth, first)
  {
    now := false;
    if !first {
      e.Emit(",");
      EmitGap(e, pretty, depth);
    }
  }

  method EmitValue(e: Escapes.Emitter, v: Value)
    modifies e
    ensures e.text == old(e.text) + ValueText(v)
  {
    match v {
      case Text(s) => e.JsonEscape(Some(s));
      case Bare(c) => e.Emit(Quoted([c]));
      case Integer(n) => e.Emit(Decimal.Digits(n));
      case Real(f) => e.Emit(FloatText(f));
      case True => e.Emit("true");
      case Position(l, c) => e.Emit("{" + Key("line") + Decimal.Digits(l) + "," + Key("col") + Decimal.Digits(c) + "}");
    }
  }

  method EmitAttributes(e: Escapes.Emitter, attributes: List<Attribute>)
    modifies e
    ensures e.text == old(e.text) + AttributesTo(attributes, "")
  {
    ghost var all := e.text + AttributesTo(attributes, "");
    var rest := attributes;
    while rest.Cons?
      invariant e.text + AttributesTo(rest, "") == all
      decreases rest
    {
      AttributesAppend(rest, "");
      Join3(e.text, AttributeText(rest.head), AttributesTo(rest.tail, ""));
      EmitAttribute(e, rest.head);
      rest := rest.tail;
    }
    assert e.text + "" == e.text;
  }

  method EmitAttribute(e: Escapes.Emitter, a: Attribute)
    modifies e
    ensures e.text == old(e.text) + AttributeText(a)
  {
    Join3(e.text, "," + Key(a.key), ValueText(a.value));
    e.Emit("," + Key(a.key));
    EmitValue(e, a.value);
  }

  method EmitNode(e: Escapes.Emitter, n: Node, pretty: bool, depth: nat, first: bool) returns (now: bool)
    modifies e
    ensures !now && e.text == old(e.text) + (ItemHead(pretty, depth, first) + NodeTo(n, pretty, depth, ""))
    decreases n, 1
  {
    Join3(e.text, Separator(pretty, depth, first), IndentIf(pretty, depth));
    Join3(e.text, ItemHead(pretty, depth, first), NodeTo(n, pretty, depth, ""));
    now := EmitSeparator(e, pretty, depth, first);
    if pretty {
      EmitIndent(e, depth);
    } else {
      assert e.text + "" == e.text;
    }
    EmitObject(e, n, pretty, depth);
  }

  method EmitObject(e: Escapes.Emitter, n: Node, pretty: bool, depth: nat)
    modifies e
    ensures e.text == old(e.text) + NodeTo(n, pretty, depth, "")
    decreases n, 0
  {
    NodeInParts(n, pretty, depth, "");
    assert "}" + "" == "}";
    Join5(e.text, NodeHead(n), AttributesTo(n.attributes, ""), GroupsTo(n.groups, pretty, depth + 1, ""), "}");
    e.Emit("{" + Key("node") + Quoted(n.kind));
    EmitAttributes(e, n.attributes);
    EmitGroups(e, n.groups, pretty, depth + 1);
    e.Emit("}");
  }

  method EmitGroups(e: Escapes.Emitter, groups: List<Group>, pretty: bool, depth: nat)
    modifies e
    ensures e.text == old(e.text) + GroupsTo(groups, pretty, depth, "")
    decreases groups
  {
    match groups {
      case Nil =>
      case Cons(g, rest) =>
        GroupAppend(g, pretty, depth, GroupsTo(rest, pretty, depth, ""));
        match g {
          case Many(key, nodes) => EmitNamedChildren(e, key, nodes, pretty, depth);
          case One(key, node) => EmitNamedChild(e, key, node, pretty, depth);
        }
        EmitGroups(e, rest, pretty, depth);
    }
  }

  /** An empty list is left out altogether. */
  method EmitNamedChildren(e: Escapes.Emitter, key: string, nodes: List<Node>, pretty: bool, depth: nat)
    modifies e
    ensures e.text == old(e.text) + GroupTo(Many(key, nodes), pretty, depth, "")
    decreases nodes, 1
  {
    if nodes.Nil? {
      assert e.text + "" == e.text;
      return;
    }
    ManyInParts(key, nodes, pretty, depth, "");
    assert "]" + "" == "]";
    Join5(e.text, ManyHead(key, pretty, depth), ItemsTo(nodes, pretty, depth + 1, true, ""), Gap(pretty, depth), "]");
    EmitListHead(e, key, pretty, depth);
    EmitItems(e, nodes, pretty, depth + 1);
    EmitGap(e, pretty, depth);
    e.Emit("]");
  }

  method EmitListHead(e: Escapes.Emitter, key: string, pretty: bool, depth: nat)
    modifies e
    ensures e.text == old(e.text) + ManyHead(key, pretty, depth)
  {
    Join5(e.text, "," + Key(key), Gap(pretty, depth), "[", Gap(pretty, 0));
    Join4("," + Key(key), Gap(pretty, depth), "[", Gap(pretty, 0));
    e.Emit("," + Key(key));
    EmitGap(e, pretty, depth);
    e.Emit("[");
    if pretty {
      e.Emit("\n");
      assert "\n" + "" == "\n";
    } else {
      assert e.text + "" == e.text;
    }
  }

  method EmitItems(e: Escapes.Emitter, nodes: List<Node>, pretty: bool, depth: nat)
    modifies e
    ensures e.text == old(e.text) + ItemsTo(nodes, pretty, depth, true, "")
    decreases nodes, 0
  {
    ghost var all := e.text + ItemsTo(nodes, pretty, depth, true, "");
    var first, rest := true, nodes;
    while rest.Cons?
      invariant e.text + ItemsTo(rest, pretty, depth, first, "") == all
      invariant rest == nodes || rest < nodes
      decreases rest
    {
      ItemsAppend(rest, pretty, depth, first, "");
      Join3(e.text, ItemHead(pretty, depth, first) + NodeTo(rest.head, pretty, depth, ""), ItemsTo(rest.tail, pretty, depth, false, ""));
      first := EmitNode(e, rest.head, pretty, depth, first);
      rest := rest.tail;
    }
    assert e.text + "" == e.text;
  }

  method EmitNamedChild(e: Escapes.Emitter, key: string, node: Node, pretty: bool, depth: nat)
    modifies e
    ensures e.text == old(e.text) + GroupTo(One(key, node), pretty, depth, "")
    decreases node, 2
  {
    var gap, value := Gap(pretty, depth), NodeTo(node, pretty, depth + 1, "");
    OneInParts(key, node, pretty, depth, "");
    Join4(e.text, "," + gap, gap, Key(key));
    Join3("," + gap, gap, Key(key));
    Join3(e.text, "," + gap + gap + Key(key), IndentIf(pretty, depth + 1) + value);
    Join3("," + gap + gap + Key(key), IndentIf(pretty, depth + 1), value);
    var now := EmitSeparator(e, pretty, depth, false);
    EmitGap(e, pretty, depth);
    e.Emit(Key(key));
    assert ItemHead(pretty, depth + 1, true) == IndentIf(pretty, depth + 1);
    now := EmitNode(e, node, pretty, depth + 1, true);
  }

  method EmitProgram(n: Node, pretty: bool) returns (text: string)
    ensures text == Document(n, pretty)
  {
    var e := new Escapes.Emitter();
    assert ItemHead(pretty, 0, true) == "";
    NodeAppend(n, pretty, 0, "\n");
    var first := EmitNode(e, n, pretty, 0, true);
    e.Emit("\n");
    text := e.text;
  }
}
