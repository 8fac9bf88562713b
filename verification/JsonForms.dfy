/** The pretty form of a JSON document is the compact one with white space added outside
    strings: taking that white space out again makes the two forms equal. */
module JsonForms {
  import opened Ast
  import opened Arithmetic
  import Decimal
  import Escapes
  import opened Json

  // ---------- the two forms ----------

  /** The text without the white space outside its strings. */
  function Squeeze(s: string): string
    decreases |s|
  {
    if s == "" then ""
    else if IsSpace(s[0]) then Squeeze(s[1..])
    else if s[0] == '"' then "\"" + SqueezeString(s[1..])
    else [s[0]] + Squeeze(s[1..])
  }

  /** The rest of a string is kept as it is. */
  function SqueezeString(s: string): string
    decreases |s|
  {
    if s == "" then ""
    else if s[0] == '"' then "\"" + Squeeze(s[1..])
    else if s[0] == '\\' && |s| >= 2 then s[..2] + SqueezeString(s[2..])
    else [s[0]] + SqueezeString(s[1..])
  }

  lemma {:induction false} PlainSqueezed(s: string, t: string)
    requires Plain(s)
    ensures SqueezeString(s + ("\"" + t)) == s + ("\"" + Squeeze(t))
    decreases |s|
  {
    if s == "" {
      assert "" + ("\"" + t) == "\"" + t && ("\"" + t)[1..] == t;
    } else {
      PlainSqueezed(s[1..], t);
      var all := s + ("\"" + t);
      assert all[1..] == s[1..] + ("\"" + t) && s == [s[0]] + s[1..];
    }
  }

  lemma {:induction false} EscapedSqueezed(s: string, t: string)
    ensures SqueezeString(Escapes.Escape(s) + ("\"" + t)) == Escapes.Escape(s) + ("\"" + Squeeze(t))
    decreases |s|
  {
    if s == "" {
      PlainSqueezed("", t);
    } else {
      EscapedSqueezed(s[1..], t);
      var c, more := Escapes.EscapeChar(s[0]), Escapes.Escape(s[1..]);
      OneSqueezed(s[0], more + ("\"" + t));
      Join3(c, more, "\"" + t);
      Join3(c, more, "\"" + Squeeze(t));
    }
  }

  lemma OneSqueezed(c: char, t: string)
    ensures SqueezeString(Escapes.EscapeChar(c) + t) == Escapes.EscapeChar(c) + SqueezeString(t)
  {
    var e := Escapes.EscapeChar(c);
    assert (e + t)[|e|..] == t && (|e| == 2 ==> (e + t)[..2] == e) && (|e| == 1 ==> e == [e[0]]);
  }

  /** Text without white space and quotes stays. */
  lemma {:induction false} SolidSqueezed(s: string, t: string)
    requires forall i :: 0 <= i < |s| ==> !IsSpace(s[i]) && s[i] != '"'
    ensures Squeeze(s + t) == s + Squeeze(t)
    decreases |s|
  {
    if s == "" {
      assert "" + t == t && "" + Squeeze(t) == Squeeze(t);
    } else {
      SolidSqueezed(s[1..], t);
      assert (s + t)[1..] == s[1..] + t && s == [s[0]] + s[1..];
    }
  }

  /** A string whose characters stay is kept as a whole. */
  lemma StringSqueezed(e: string, t: string)
    requires SqueezeString(e + ("\"" + t)) == e + ("\"" + Squeeze(t))
    ensures Squeeze(Quoted(e) + t) == Quoted(e) + Squeeze(t)
  {
    assert Quoted(e) + t == "\"" + (e + ("\"" + t)) && ("\"" + (e + ("\"" + t)))[1..] == e + ("\"" + t);
    assert Quoted(e) + Squeeze(t) == "\"" + (e + ("\"" + Squeeze(t)));
  }

  lemma QuotedSqueezed(s: string, t: string)
    requires Plain(s)
    ensures Squeeze(Quoted(s) + t) == Quoted(s) + Squeeze(t) && Squeeze(Key(s) + t) == Key(s) + Squeeze(t)
  {
    PlainSqueezed(s, t);
    StringSqueezed(s, t);
    PlainSqueezed(s, ":" + t);
    StringSqueezed(s, ":" + t);
    SolidSqueezed(":", t);
    assert Key(s) + t == Quoted(s) + (":" + t) && Key(s) + Squeeze(t) == Quoted(s) + (":" + Squeeze(t));
  }

  lemma TextSqueezed(s: string, t: string)
    ensures Squeeze(Quoted(Escapes.Escape(s)) + t) == Quoted(Escapes.Escape(s)) + Squeeze(t)
  {
    EscapedSqueezed(s, t);
    StringSqueezed(Escapes.Escape(s), t);
  }

  lemma {:induction false} GapSqueezed(pretty: bool, depth: nat, t: string)
    ensures Squeeze(Gap(pretty, depth) + t) == Squeeze(t) && Squeeze(IndentIf(pretty, depth) + t) == Squeeze(t)
  {
    IndentSqueezed(depth, t);
    if pretty {
      assert (Gap(pretty, depth) + t)[1..] == Indent(depth) + t;
    } else {
      assert "" + t == t;
    }
  }

  lemma {:induction false} IndentSqueezed(depth: nat, t: string)
    ensures Squeeze(Indent(depth) + t) == Squeeze(t)
  {
    if depth == 0 {
      assert "" + t == t;
    } else {
      var more := Indent(depth - 1) + t;
      IndentSqueezed(depth - 1, t);
      assert Indent(depth) + t == "  " + more && ("  " + more)[1..] == " " + more && (" " + more)[1..] == more;
    }
  }

  lemma ValueSqueezed(v: Value, t: string)
    requires CleanValue(v) && IsNumber(v)
    ensures Squeeze(ValueText(v) + t) == ValueText(v) + Squeeze(t)
  {
    match v
    case Text(s) => TextSqueezed(s, t);
    case Bare(c) => QuotedSqueezed([c], t);
    case Integer(n) => SolidSqueezed(Decimal.Digits(n), t);
    case Real(f) =>
      NumberIsSolid(f.number);
      SolidSqueezed(NumberText(f.number), t);
    case True => SolidSqueezed("true", t);
    case Position(l, c) => PositionSqueezed(l, c, t);
  }

  lemma NumberIsSolid(x: Number)
    requires forall i :: 0 <= i < |x.fraction| ==> Decimal.IsDigit(x.fraction[i])
    ensures forall i :: 0 <= i < |NumberText(x)| ==> !IsSpace(NumberText(x)[i]) && NumberText(x)[i] != '"'
  {
    if x.exponent.Some? {
      TwoDigitsReadBack(Magnitude(x.exponent.value));
    }
  }

  lemma PositionSqueezed(l: nat, c: nat, t: string)
    ensures Squeeze(ValueText(Position(l, c)) + t) == ValueText(Position(l, c)) + Squeeze(t)
  {
    var lt, ct := Decimal.Digits(l), Decimal.Digits(c);
    var end := "}" + t;
    PositionInParts(l, c, t);
    PositionInParts(l, c, Squeeze(t));
    SolidSqueezed("}", t);
    SolidSqueezed(ct, end);
    QuotedSqueezed("col", ct + end);
    SolidSqueezed(",", Key("col") + (ct + end));
    SolidSqueezed(lt, "," + (Key("col") + (ct + end)));
    QuotedSqueezed("line", lt + ("," + (Key("col") + (ct + end))));
    SolidSqueezed("{", Key("line") + (lt + ("," + (Key("col") + (ct + end)))));
  }

  lemma PositionInParts(l: nat, c: nat, t: string)
    ensures ValueText(Position(l, c)) + t ==
            "{" + (Key("line") + (Decimal.Digits(l) + ("," + (Key("col") + (Decimal.Digits(c) + ("}" + t))))))
  {
    var lt, ct := Decimal.Digits(l), Decimal.Digits(c);
    Join4("{" + Key("line") + lt + ",", Key("col"), ct, "}" + t);
    Join3("{" + Key("line") + lt + "," + Key("col") + ct, "}", t);
    Join5("{", Key("line"), lt, ",", Key("col") + (ct + ("}" + t)));
  }

  lemma {:induction false} AttributesSqueezed(attributes: List<Attribute>, t: string)
    requires CleanAttributes(attributes) && ChosenAttributes(attributes)
    ensures Squeeze(AttributesTo(attributes, t)) == AttributesTo(attributes, Squeeze(t))
    decreases attributes
  {
    match attributes
    case Nil =>
    case Cons(a, rest) =>
      AttributesSqueezed(rest, t);
      var more := AttributesTo(rest, t);
      ValueSqueezed(a.value, more);
      QuotedSqueezed(a.key, ValueText(a.value) + more);
      SolidSqueezed(",", Key(a.key) + (ValueText(a.value) + more));
  }

  /** Without that white space every node is printed as in the compact form. */
  lemma {:induction false} NodeSqueezed(n: Node, pretty: bool, depth: nat, t: string)
    requires Clean(n) && Printable(n)
    ensures Squeeze(NodeTo(n, pretty, depth, t)) == NodeTo(n, false, depth, Squeeze(t))
    decreases n, 1
  {
    var groups := GroupsTo(n.groups, pretty, depth + 1, "}" + t);
    var more := AttributesTo(n.attributes, groups);
    GroupsSqueezed(n.groups, pretty, depth + 1, "}" + t);
    SolidSqueezed("}", t);
    AttributesSqueezed(n.attributes, groups);
    QuotedSqueezed(n.kind, more);
    QuotedSqueezed("node", Quoted(n.kind) + more);
    SolidSqueezed("{", Key("node") + (Quoted(n.kind) + more));
  }

  lemma {:induction false} GroupsSqueezed(groups: List<Group>, pretty: bool, depth: nat, t: string)
    requires CleanGroups(groups) && PrintableGroups(groups)
    ensures Squeeze(GroupsTo(groups, pretty, depth, t)) == GroupsTo(groups, false, depth, Squeeze(t))
    decreases groups
  {
    match groups
    case Nil =>
    case Cons(g, rest) =>
      GroupsSqueezed(rest, pretty, depth, t);
      GroupSqueezed(g, pretty, depth, GroupsTo(rest, pretty, depth, t));
  }

  lemma {:induction false} GroupSqueezed(g: Group, pretty: bool, depth: nat, t: string)
    requires CleanGroups(Cons(g, Nil)) && PrintableGroups(Cons(g, Nil))
    ensures Squeeze(GroupTo(g, pretty, depth, t)) == GroupTo(g, false, depth, Squeeze(t))
    decreases g
  {
    match g
    case Many(key, nodes) =>
      if nodes.Cons? {
        var end := Gap(pretty, depth) + ("]" + t);
        var items := ItemsTo(nodes, pretty, depth + 1, true, end);
        ItemsSqueezed(nodes, pretty, depth + 1, true, end);
        GapSqueezed(pretty, depth, "]" + t);
        SolidSqueezed("]", t);
        ListHeadSqueezed(key, pretty, depth, items);
        assert Gap(false, depth) + ("]" + Squeeze(t)) == "]" + Squeeze(t);
      }
    case One(key, node) =>
      NodeSqueezed(node, pretty, depth + 1, t);
      OneHeadSqueezed(key, pretty, depth, NodeTo(node, pretty, depth + 1, t));
  }

  lemma ListHeadSqueezed(key: string, pretty: bool, depth: nat, items: string)
    requires Chosen(key)
    ensures Squeeze("," + (Key(key) + (Gap(pretty, depth) + ("[" + (Gap(pretty, 0) + items))))) ==
            "," + (Key(key) + (Gap(false, depth) + ("[" + (Gap(false, 0) + Squeeze(items)))))
  {
    var inside := "[" + (Gap(pretty, 0) + items);
    GapSqueezed(pretty, 0, items);
    SolidSqueezed("[", Gap(pretty, 0) + items);
    GapSqueezed(pretty, depth, inside);
    QuotedSqueezed(key, Gap(pretty, depth) + inside);
    SolidSqueezed(",", Key(key) + (Gap(pretty, depth) + inside));
    assert Gap(false, 0) + Squeeze(items) == Squeeze(items);
    assert Gap(false, depth) + ("[" + Squeeze(items)) == "[" + Squeeze(items);
  }

  lemma OneHeadSqueezed(key: string, pretty: bool, depth: nat, node: string)
    requires Chosen(key)
    ensures var gap := Gap(pretty, depth);
      Squeeze("," + (gap + (gap + (Key(key) + (IndentIf(pretty, depth + 1) + node))))) ==
      "," + (Gap(false, depth) + (Gap(false, depth) + (Key(key) + (IndentIf(false, depth + 1) + Squeeze(node)))))
  {
    var gap, value := Gap(pretty, depth), IndentIf(pretty, depth + 1) + node;
    GapSqueezed(pretty, depth + 1, node);
    QuotedSqueezed(key, value);
    GapSqueezed(pretty, depth, Key(key) + value);
    GapSqueezed(pretty, depth, gap + (Key(key) + value));
    SolidSqueezed(",", gap + (gap + (Key(key) + value)));
    var squeezed := Key(key) + Squeeze(node);
    assert IndentIf(false, depth + 1) + Squeeze(node) == Squeeze(node);
    assert Gap(false, depth) + squeezed == squeezed && Gap(false, depth) + (Gap(false, depth) + squeezed) == squeezed;
  }

  lemma {:induction false} ItemsSqueezed(nodes: List<Node>, pretty: bool, depth: nat, first: bool, t: string)
    requires CleanItems(nodes) && PrintableItems(nodes)
    ensures Squeeze(ItemsTo(nodes, pretty, depth, first, t)) == ItemsTo(nodes, false, depth, first, Squeeze(t))
    decreases nodes
  {
    match nodes
    case Nil =>
    case Cons(n, rest) =>
      var more := ItemsTo(rest, pretty, depth, false, t);
      ItemsSqueezed(rest, pretty, depth, false, t);
      NodeSqueezed(n, pretty, depth, more);
      ItemHeadSqueezed(pretty, depth, first, NodeTo(n, pretty, depth, more));
  }

  lemma ItemHeadSqueezed(pretty: bool, depth: nat, first: bool, node: string)
    ensures Squeeze(Separator(pretty, depth, first) + (IndentIf(pretty, depth) + node)) ==
            Separator(false, depth, first) + (IndentIf(false, depth) + Squeeze(node))
  {
    var item := IndentIf(pretty, depth) + node;
    GapSqueezed(pretty, depth, node);
    SeparatorInParts(pretty, depth, first, item);
    SeparatorInParts(false, depth, first, Squeeze(node));
    NoIndent(depth, Squeeze(node));
    if !first {
      GapSqueezed(pretty, depth, item);
      SolidSqueezed(",", Gap(pretty, depth) + item);
      NoIndent(depth, Squeeze(node));
    }
  }

  lemma NoIndent(depth: nat, t: string)
    ensures IndentIf(false, depth) + t == t && Gap(false, depth) + t == t
  {
  }

  /** The two forms of a document differ in nothing but white space outside strings, of which the
      compact form has only the newline at its end. */
  lemma FormsDifferInSpace(n: Node)
    requires Clean(n) && Printable(n)
    ensures Squeeze(Document(n, true)) == Squeeze(Document(n, false))
    ensures Document(n, false) == Squeeze(Document(n, false)) + "\n"
  {
    assert Squeeze("\n") == "" by { assert "\n"[1..] == ""; }
    NodeSqueezed(n, true, 0, "\n");
    NodeSqueezed(n, false, 0, "\n");
    NodeAppend(n, false, 0, "\n");
  }

  /** Each level of the pretty form is indented by two more blanks. */
  lemma {:induction false} IndentIsBlank(depth: nat)
    ensures |Indent(depth)| == 2 * depth && forall i :: 0 <= i < |Indent(depth)| ==> Indent(depth)[i] == ' '
    decreases depth
  {
    if depth > 0 {
      IndentIsBlank(depth - 1);
    }
  }
}
