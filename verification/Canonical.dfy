/** The text a node is hashed from, and the cids made of the hash. */
module Canonical {
  import opened Options
  import opened Json
  import opened Text

  /** A node as it is hashed: edges are pairs of cid texts. */
  datatype Node = Node(data: Data, children: seq<(string, string)>)

  // ---------------------------------------------------------------------------
  // Strings in quotes

  function HexDigit(n: nat): char
    requires n < 16
  {
    "0123456789abcdef"[n]
  }

  /** A character inside a JSON string. */
  function Escape(c: char): (r: string)
    ensures r != ""
  {
    if c == '"' then "\\\""
    else if c == '\\' then "\\\\"
    else if c as int == 8 then "\\b"
    else if c as int == 9 then "\\t"
    else if c as int == 10 then "\\n"
    else if c as int == 12 then "\\f"
    else if c as int == 13 then "\\r"
    else if c as int < 32 then "\\u00" + [HexDigit(c as int / 16), HexDigit(c as int % 16)]
    else [c]
  }

  function Escaped(s: string): string { if s == "" then "" else Escape(s[0]) + Escaped(s[1..]) }

  function Quoted(s: string): string { "\"" + Escaped(s) + "\"" }

  // ---------------------------------------------------------------------------
  // Values

  /** Prints a number. JSON leaves the choice of digits to the program; the host's printer is a parameter. */
  type Printer = real -> string

  const NUMBER_CHARS: string := "0123456789+-.eE"

  ghost predicate IsPrinter(p: Printer) {
    && (forall x, y :: p(x) == p(y) ==> x == y)
    && (forall x :: p(x) != "" && forall c | c in p(x) :: c in NUMBER_CHARS)
  }

  /** What normalisation keeps of a value: an object assigned the member `__proto__` gains no member. */
  function Normal(j: Json): Json {
    match j
    case Arr(items) => Arr(seq(|items|, i requires 0 <= i < |items| => Normal(items[i])))
    case Obj(fields) => Obj(map key | key in fields && key != "__proto__" :: Normal(fields[key]))
    case _ => j
  }

  /** Member names in the order a normalised object lists them. */
  ghost function Names(names: set<string>): (r: seq<string>)
    ensures forall x :: x in r <==> x in names
  {
    ListedOnce(names, IndicesFirst);
    Listed(names, IndicesFirst)
  }

  ghost function JsonText(p: Printer, j: Json): string
    decreases j, 1, 0
  {
    match j
    case Null => "null"
    case Bool(b) => if b then "true" else "false"
    case Num(n) => p(n)
    case Str(s) => Quoted(s)
    case Arr(items) => "[" + ItemsText(p, j, 0) + "]"
    case Obj(fields) => "{" + MembersText(p, j, Names(fields.Keys)) + "}"
  }

  ghost function ItemsText(p: Printer, j: Json, i: nat): string
    requires j.Arr? && i <= |j.items|
    decreases j, 0, |j.items| - i
  {
    if i == |j.items| then "" else JsonText(p, j.items[i]) + (Comma(i + 1 < |j.items|) + ItemsText(p, j, i + 1))
  }

  ghost function MembersText(p: Printer, j: Json, names: seq<string>): string
    requires j.Obj? && forall name | name in names :: name in j.fields
    decreases j, 0, |names|
  {
    if names == [] then ""
    else
        Quoted(names[0]) + (":" + (JsonText(p, j.fields[names[0]])
        + (Comma(|names| > 1) + MembersText(p, j, names[1..]))))
  }

  function Comma(more: bool): string { if more then "," else "" }

  // ---------------------------------------------------------------------------
  // Strings read back

  function HexValue(c: char): int {
    if '0' <= c <= '9' then c as int - '0' as int else if 'a' <= c <= 'f' then c as int - 'a' as int + 10 else -1
  }

  /** The first character of escaped text, and what follows it. */
  function ReadEscape(t: string): Option<(char, string)> {
    if t == "" then None
    else if t[0] != '\\' then Some((t[0], t[1..]))
    else if |t| < 2 then None
    else if t[1] == '"' || t[1] == '\\' then Some((t[1], t[2..]))
    else if t[1] == 'b' then Some((8 as char, t[2..]))
    else if t[1] == 't' then Some((9 as char, t[2..]))
    else if t[1] == 'n' then Some((10 as char, t[2..]))
    else if t[1] == 'f' then Some((12 as char, t[2..]))
    else if t[1] == 'r' then Some((13 as char, t[2..]))
    else if |t| < 6 || !(0 <= HexValue(t[4]) < 2 && 0 <= HexValue(t[5])) then None
    else Some(((16 * HexValue(t[4]) + HexValue(t[5])) as char, t[6..]))
  }

  lemma EscapeReads(c: char, r: string)
    ensures ReadEscape(Escape(c) + r) == Some((c, r))
    ensures Escape(c)[0] != '"'
  {
    var t := Escape(c) + r;
    assert t[..|Escape(c)|] == Escape(c) && t[|Escape(c)|..] == r;
    if c as int < 32 {
      var high, low := c as int / 16, c as int % 16;
      HexReads(high);
      HexReads(low);
    }
  }

  lemma HexReads(n: nat)
    requires n < 16
    ensures HexValue(HexDigit(n)) == n
  {}

  lemma {:induction false} EscapedUnique(a: string, b: string, r: string, s: string)
    requires Escaped(a) + ("\"" + r) == Escaped(b) + ("\"" + s)
    ensures a == b && r == s
  {
    if a == "" || b == "" {
      EscapedEnds(a, r);
      EscapedEnds(b, s);
    } else {
      EscapedSplits(a, r);
      EscapedSplits(b, s);
      EscapeReads(a[0], Escaped(a[1..]) + ("\"" + r));
      EscapeReads(b[0], Escaped(b[1..]) + ("\"" + s));
      EscapedUnique(a[1..], b[1..], r, s);
      assert a == [a[0]] + a[1..] && b == [b[0]] + b[1..];
    }
  }

  lemma EscapedEnds(a: string, r: string)
    ensures (Escaped(a) + ("\"" + r))[0] == '"' <==> a == ""
    ensures a == "" ==> (Escaped(a) + ("\"" + r))[1..] == r
  {
    if a != "" { EscapeReads(a[0], ""); }
  }

  lemma EscapedSplits(a: string, r: string)
    requires a != ""
    ensures Escaped(a) + ("\"" + r) == Escape(a[0]) + (Escaped(a[1..]) + ("\"" + r))
  {}

  lemma Unquoted(a: string, r: string)
    ensures (Quoted(a) + r)[1..] == Escaped(a) + ("\"" + r)
  {}

  lemma QuotedUnique(a: string, b: string, r: string, s: string)
    requires Quoted(a) + r == Quoted(b) + s
    ensures a == b && r == s
  {
    Unquoted(a, r);
    Unquoted(b, s);
    EscapedUnique(a, b, r, s);
  }

  // ---------------------------------------------------------------------------
  // A value's text determines the value

  /** What may follow a value's text. */
  predicate Delimited(r: string) { r == "" || r[0] == ',' || r[0] == ']' || r[0] == '}' }

  predicate IsNumberText(a: string) { a != "" && forall c | c in a :: c in NUMBER_CHARS }

  lemma NumberEnds(a: string, r: string, k: nat)
    requires IsNumberText(a) && Delimited(r) && k < |a + r|
    ensures k < |a| ==> (a + r)[k] in NUMBER_CHARS
    ensures k == |a| ==> (a + r)[k] !in NUMBER_CHARS
  {
    if k < |a| { assert a[k] in a; }
  }

  lemma NumberUnique(a: string, b: string, r: string, s: string)
    requires IsNumberText(a) && IsNumberText(b) && Delimited(r) && Delimited(s) && a + r == b + s
    ensures a == b && r == s
  {
    var k := if |a| < |b| then |a| else |b|;
    if k < |a + r| {
      NumberEnds(a, r, k);
      NumberEnds(b, s, k);
    }
    assert |a| == |b|;
    assert a == (a + r)[..|a|] && b == (b + s)[..|a|];
    Suffix(a, r, s);
  }

  predicate Starts(j: Json, c: char) {
    match j
    case Null => c == 'n'
    case Bool(b) => c == if b then 't' else 'f'
    case Num(_) => c in NUMBER_CHARS
    case Str(_) => c == '"'
    case Arr(_) => c == '['
    case Obj(_) => c == '{'
  }

  lemma TextStarts(p: Printer, j: Json)
    requires IsPrinter(p)
    ensures JsonText(p, j) != "" && Starts(j, JsonText(p, j)[0])
  {
    if j.Num? { assert p(j.n)[0] in p(j.n); }
  }

  lemma StartsApart(x: Json, y: Json, c: char)
    requires Starts(x, c) && Starts(y, c)
    ensures match x
            case Null => y.Null?
            case Bool(b) => y.Bool? && y.b == b
            case Num(_) => y.Num?
            case Str(_) => y.Str?
            case Arr(_) => y.Arr?
            case Obj(_) => y.Obj?
    ensures c != ']' && c != '}' && c != ','
  {}

  /** Texts that agree as far as a value goes are of the same value, and agree in what follows. */
  lemma {:induction false} JsonUnique(p: Printer, x: Json, y: Json, r: string, s: string)
    requires IsPrinter(p) && Delimited(r) && Delimited(s) && JsonText(p, x) + r == JsonText(p, y) + s
    ensures x == y && r == s
    decreases x, 1, 0
  {
    TextStarts(p, x);
    TextStarts(p, y);
    assert JsonText(p, x)[0] == (JsonText(p, x) + r)[0] == (JsonText(p, y) + s)[0] == JsonText(p, y)[0];
    StartsApart(x, y, JsonText(p, x)[0]);
    match x
    case Null => Suffix("null", r, s);
    case Bool(b) => Suffix(JsonText(p, x), r, s);
    case Num(n) => NumberUnique(p(n), p(y.n), r, s);
    case Str(t) => QuotedUnique(t, y.s, r, s);
    case Arr(_) =>
      Bracket("[", ItemsText(p, x, 0), "]", r);
      Bracket("[", ItemsText(p, y, 0), "]", s);
      ItemsUnique(p, x, y, 0, r, s);
    case Obj(_) =>
      var xs, ys := Names(x.fields.Keys), Names(y.fields.Keys);
      Bracket("{", MembersText(p, x, xs), "}", r);
      Bracket("{", MembersText(p, y, ys), "}", s);
      MembersUnique(p, x, y, xs, ys, r, s);
      SameMembers(x.fields, y.fields, xs);
  }

  lemma Suffix(t: string, r: string, s: string)
    requires t + r == t + s
    ensures r == s
  {
    assert r == (t + r)[|t|..] && s == (t + s)[|t|..];
  }

  lemma Bracket(open: string, inner: string, close: string, r: string)
    requires |open| == 1
    ensures (open + inner + close + r)[1..] == inner + (close + r)
  {}

  lemma SameMembers(x: map<string, Json>, y: map<string, Json>, names: seq<string>)
    requires forall name :: name in names <==> name in x
    requires forall name :: name in names <==> name in y
    requires forall name | name in names :: x[name] == y[name]
    ensures x == y
  {
    forall name ensures name in x <==> name in y {
      assert name in names <==> name in x;
    }
  }

  lemma Regroup(text: string, comma: string, rest: string, close: string)
    ensures text + (comma + rest) + close == text + (comma + (rest + close))
  {}

  /** After an item comes a comma exactly when there are more. */
  lemma AfterItem(more: bool, rest: string, again: bool, other: string, close: char, r: string, s: string)
    requires close == ']' || close == '}'
    requires !more ==> rest == ""
    requires !again ==> other == ""
    requires Comma(more) + (rest + ([close] + r)) == Comma(again) + (other + ([close] + s))
    ensures more == again && rest + ([close] + r) == other + ([close] + s)
  {
    var left, right := Comma(more) + (rest + ([close] + r)), Comma(again) + (other + ([close] + s));
    assert left[0] == if more then ',' else close;
    assert right[0] == if again then ',' else close;
    Suffix(Comma(more), rest + ([close] + r), other + ([close] + s));
  }

  lemma ItemThen(p: Printer, x: Json, i: nat, r: string)
    requires x.Arr? && i < |x.items|
    ensures ItemsText(p, x, i) + ("]" + r) == JsonText(p, x.items[i])
            + (Comma(i + 1 < |x.items|) + (ItemsText(p, x, i + 1) + ("]" + r)))
    ensures Delimited(Comma(i + 1 < |x.items|) + (ItemsText(p, x, i + 1) + ("]" + r)))
    ensures !(i + 1 < |x.items|) ==> ItemsText(p, x, i + 1) == ""
  {
    Regroup(JsonText(p, x.items[i]), Comma(i + 1 < |x.items|), ItemsText(p, x, i + 1), "]" + r);
  }

  lemma ItemsEnd(p: Printer, x: Json, i: nat, r: string)
    requires IsPrinter(p) && x.Arr? && i <= |x.items|
    ensures (ItemsText(p, x, i) + ("]" + r))[0] == ']' <==> i == |x.items|
    ensures i == |x.items| ==> (ItemsText(p, x, i) + ("]" + r))[1..] == r
  {
    if i < |x.items| {
      TextStarts(p, x.items[i]);
      StartsApart(x.items[i], x.items[i], JsonText(p, x.items[i])[0]);
    }
  }

  lemma {:induction false} ItemsUnique(p: Printer, x: Json, y: Json, i: nat, r: string, s: string)
    requires IsPrinter(p) && x.Arr? && y.Arr? && i <= |x.items| && i <= |y.items| && x.items[..i] == y.items[..i]
    requires ItemsText(p, x, i) + ("]" + r) == ItemsText(p, y, i) + ("]" + s)
    ensures x == y && r == s
    decreases x, 0, |x.items| - i
  {
    ItemsEnd(p, x, i, r);
    ItemsEnd(p, y, i, s);
    if i < |x.items| {
      ItemUnique(p, x, y, i, r, s);
      assert x.items[..i + 1] == x.items[..i] + [x.items[i]] && y.items[..i + 1] == y.items[..i] + [y.items[i]];
      ItemsUnique(p, x, y, i + 1, r, s);
    } else {
      assert x.items == x.items[..i] && y.items == y.items[..i];
    }
  }

  lemma {:induction false} ItemUnique(p: Printer, x: Json, y: Json, i: nat, r: string, s: string)
    requires IsPrinter(p) && x.Arr? && y.Arr? && i < |x.items| && i < |y.items|
    requires ItemsText(p, x, i) + ("]" + r) == ItemsText(p, y, i) + ("]" + s)
    ensures x.items[i] == y.items[i]
    ensures ItemsText(p, x, i + 1) + ("]" + r) == ItemsText(p, y, i + 1) + ("]" + s)
    decreases x, 0, 0
  {
    ItemThen(p, x, i, r);
    ItemThen(p, y, i, s);
    var more, again := i + 1 < |x.items|, i + 1 < |y.items|;
    var rest, other := ItemsText(p, x, i + 1), ItemsText(p, y, i + 1);
    JsonUnique(p, x.items[i], y.items[i], Comma(more) + (rest + ("]" + r)), Comma(again) + (other + ("]" + s)));
    AfterItem(more, rest, again, other, ']', r, s);
  }

  lemma MemberThen(p: Printer, x: Json, names: seq<string>, r: string)
    requires x.Obj? && names != [] && forall name | name in names :: name in x.fields
    ensures MembersText(p, x, names) + ("}" + r)
            == Quoted(names[0]) + (":" + (JsonText(p, x.fields[names[0]])
                + (Comma(|names| > 1) + (MembersText(p, x, names[1..]) + ("}" + r)))))
    ensures Delimited(Comma(|names| > 1) + (MembersText(p, x, names[1..]) + ("}" + r)))
    ensures |names| <= 1 ==> MembersText(p, x, names[1..]) == ""
  {
    var value, comma, rest := JsonText(p, x.fields[names[0]]), Comma(|names| > 1), MembersText(p, x, names[1..]);
    Regroup(value, comma, rest, "}" + r);
    Regroup(Quoted(names[0]), ":", value + (comma + rest), "}" + r);
  }

  lemma MembersEnd(p: Printer, x: Json, names: seq<string>, r: string)
    requires x.Obj? && forall name | name in names :: name in x.fields
    ensures (MembersText(p, x, names) + ("}" + r))[0] == '}' <==> names == []
    ensures names == [] ==> (MembersText(p, x, names) + ("}" + r))[1..] == r
  {}

  lemma {:induction false} MembersUnique(p: Printer, x: Json, y: Json, xs: seq<string>, ys: seq<string>, r: string,
      s: string)
    requires IsPrinter(p) && x.Obj? && y.Obj?
    requires forall name | name in xs :: name in x.fields
    requires forall name | name in ys :: name in y.fields
    requires MembersText(p, x, xs) + ("}" + r) == MembersText(p, y, ys) + ("}" + s)
    ensures xs == ys && (forall name | name in xs :: x.fields[name] == y.fields[name]) && r == s
    decreases x, 0, |xs|
  {
    MembersEnd(p, x, xs, r);
    MembersEnd(p, y, ys, s);
    if xs != [] {
      MemberUnique(p, x, y, xs, ys, r, s);
      MembersUnique(p, x, y, xs[1..], ys[1..], r, s);
      assert xs == [xs[0]] + xs[1..] && ys == [ys[0]] + ys[1..];
    }
  }

  lemma {:induction false} MemberUnique(p: Printer, x: Json, y: Json, xs: seq<string>, ys: seq<string>, r: string,
      s: string)
    requires IsPrinter(p) && x.Obj? && y.Obj? && xs != [] && ys != []
    requires forall name | name in xs :: name in x.fields
    requires forall name | name in ys :: name in y.fields
    requires MembersText(p, x, xs) + ("}" + r) == MembersText(p, y, ys) + ("}" + s)
    ensures xs[0] == ys[0] && x.fields[xs[0]] == y.fields[ys[0]]
    ensures MembersText(p, x, xs[1..]) + ("}" + r) == MembersText(p, y, ys[1..]) + ("}" + s)
    decreases x, 0, 0
  {
    MemberThen(p, x, xs, r);
    MemberThen(p, y, ys, s);
    var a, b := JsonText(p, x.fields[xs[0]]), JsonText(p, y.fields[ys[0]]);
    var more, again := |xs| > 1, |ys| > 1;
    var rest, other := MembersText(p, x, xs[1..]), MembersText(p, y, ys[1..]);
    var c, d := Comma(more) + (rest + ("}" + r)), Comma(again) + (other + ("}" + s));
    QuotedUnique(xs[0], ys[0], ":" + (a + c), ":" + (b + d));
    Suffix(":", a + c, b + d);
    JsonUnique(p, x.fields[xs[0]], y.fields[ys[0]], c, d);
    AfterItem(more, rest, again, other, '}', r, s);
  }

  // ---------------------------------------------------------------------------
  // Nodes

  function RowText(e: (string, string)): string { "[" + (Quoted(e.0) + ("," + (Quoted(e.1) + "]"))) }

  function RowsText(es: seq<(string, string)>): string {
    if es == [] then "" else RowText(es[0]) + (Comma(|es| > 1) + RowsText(es[1..]))
  }

  /** What is hashed: the data as its own text in quotes, the edges as written. */
  ghost function NodeText(p: Printer, n: Node): string {
    "{\"data\":" + (Quoted(JsonText(p, Normal(Obj(n.data)))) + (",\"children\":[" + (RowsText(n.children) + "]}")))
  }

  lemma RowUnique(a: (string, string), b: (string, string), r: string, s: string)
    requires RowText(a) + r == RowText(b) + s
    ensures a == b && r == s
  {
    RowGroups(a, r);
    RowGroups(b, s);
    Suffix("[", Quoted(a.0) + ("," + (Quoted(a.1) + ("]" + r))), Quoted(b.0) + ("," + (Quoted(b.1) + ("]" + s))));
    QuotedUnique(a.0, b.0, "," + (Quoted(a.1) + ("]" + r)), "," + (Quoted(b.1) + ("]" + s)));
    Suffix(",", Quoted(a.1) + ("]" + r), Quoted(b.1) + ("]" + s));
    QuotedUnique(a.1, b.1, "]" + r, "]" + s);
    Suffix("]", r, s);
  }

  lemma RowGroups(a: (string, string), r: string)
    ensures RowText(a) + r == "[" + (Quoted(a.0) + ("," + (Quoted(a.1) + ("]" + r))))
  {}

  lemma RowsEnd(es: seq<(string, string)>, r: string)
    ensures (RowsText(es) + ("]" + r))[0] == ']' <==> es == []
    ensures es == [] ==> (RowsText(es) + ("]" + r))[1..] == r
  {
    if es != [] { assert RowText(es[0])[0] == '['; }
  }

  lemma RowsThen(es: seq<(string, string)>, r: string)
    requires es != []
    ensures RowsText(es) + ("]" + r) == RowText(es[0]) + (Comma(|es| > 1) + (RowsText(es[1..]) + ("]" + r)))
    ensures |es| == 1 ==> RowsText(es[1..]) == ""
  {
    Regroup(RowText(es[0]), Comma(|es| > 1), RowsText(es[1..]), "]" + r);
  }

  lemma {:induction false} RowsUnique(a: seq<(string, string)>, b: seq<(string, string)>, r: string, s: string)
    requires RowsText(a) + ("]" + r) == RowsText(b) + ("]" + s)
    ensures a == b && r == s
  {
    RowsEnd(a, r);
    RowsEnd(b, s);
    if a != [] {
      RowsThen(a, r);
      RowsThen(b, s);
      var rest, other := RowsText(a[1..]), RowsText(b[1..]);
      RowUnique(a[0], b[0], Comma(|a| > 1) + (rest + ("]" + r)), Comma(|b| > 1) + (other + ("]" + s)));
      AfterItem(|a| > 1, rest, |b| > 1, other, ']', r, s);
      RowsUnique(a[1..], b[1..], r, s);
      assert a == [a[0]] + a[1..] && b == [b[0]] + b[1..];
    }
  }

  /**
   * Two nodes are hashed from the same text exactly when their edges are the same in order and their data are equal up
   * to member order, leaving out members named `__proto__`.
   */
  lemma SameText(p: Printer, a: Node, b: Node)
    requires IsPrinter(p)
    ensures NodeText(p, a) == NodeText(p, b) <==> a.children == b.children && Normal(Obj(a.data)) == Normal(Obj(b.data))
  {
    if NodeText(p, a) == NodeText(p, b) {
      var x, y := JsonText(p, Normal(Obj(a.data))), JsonText(p, Normal(Obj(b.data)));
      var c, d := RowsText(a.children) + "]}", RowsText(b.children) + "]}";
      Suffix("{\"data\":", Quoted(x) + (",\"children\":[" + c), Quoted(y) + (",\"children\":[" + d));
      QuotedUnique(x, y, ",\"children\":[" + c, ",\"children\":[" + d);
      Suffix(",\"children\":[", c, d);
      assert c == RowsText(a.children) + ("]" + "}") && d == RowsText(b.children) + ("]" + "}");
      RowsUnique(a.children, b.children, "}", "}");
      assert x + "" == x && y + "" == y;
      JsonUnique(p, Normal(Obj(a.data)), Normal(Obj(b.data)), "", "");
    }
  }

  /** No member anywhere in the value is named `__proto__`. */
  predicate Plain(j: Json) {
    match j
    case Arr(items) => forall i | 0 <= i < |items| :: Plain(items[i])
    case Obj(fields) => "__proto__" !in fields && forall key | key in fields :: Plain(fields[key])
    case _ => true
  }

  lemma {:induction false} NormalIsPlain(j: Json)
    ensures Plain(Normal(j))
    ensures Normal(j) == j <==> Plain(j)
  {
    match j
    case Arr(items) =>
      forall i | 0 <= i < |items| ensures Plain(Normal(items[i]))
          && (Normal(items[i]) == items[i] <==> Plain(items[i])) {
        NormalIsPlain(items[i]);
      }
      if Plain(j) { assert Normal(j).items == items; }
      if Normal(j) == j {
        forall i | 0 <= i < |items| ensures Plain(items[i]) { assert Normal(j).items[i] == items[i]; }
      }
    case Obj(fields) =>
      forall key | key in fields ensures Plain(Normal(fields[key]))
          && (Normal(fields[key]) == fields[key] <==> Plain(fields[key])) {
        NormalIsPlain(fields[key]);
      }
      if Plain(j) { assert Normal(j).fields == fields; }
      if Normal(j) == j {
        assert "__proto__" !in Normal(j).fields;
        forall key | key in fields ensures Plain(fields[key]) { assert Normal(j).fields[key] == fields[key]; }
      }
    case _ =>
  }

  /** So no two different nodes share their text, among nodes none of whose members is named `__proto__`. */
  lemma UnambiguousText(p: Printer, a: Node, b: Node)
    requires IsPrinter(p) && Plain(Obj(a.data)) && Plain(Obj(b.data))
    ensures NodeText(p, a) == NodeText(p, b) <==> a == b
  {
    SameText(p, a, b);
    NormalIsPlain(Obj(a.data));
    NormalIsPlain(Obj(b.data));
  }

  /** And every node with such a member shares its text with another: the one without it. */
  lemma AmbiguousText(p: Printer, a: Node)
    requires IsPrinter(p) && !Plain(Obj(a.data))
    ensures exists b: Node :: b != a && NodeText(p, b) == NodeText(p, a)
  {
    var b := Node(Normal(Obj(a.data)).fields, a.children);
    NormalIsPlain(Obj(a.data));
    NormalIsPlain(Obj(b.data));
    SameText(p, a, b);
    assert b != a && NodeText(p, b) == NodeText(p, a);
  }

  // ---------------------------------------------------------------------------
  // Content ids

  const VERSION := "0.0.7"

  predicate IsDigest(d: string) { |d| == 64 && forall c | c in d :: HexValue(c) >= 0 }

  predicate IsDigits(s: string) { s != "" && forall c | c in s :: '0' <= c <= '9' }

  /** Dotted numbers. */
  predicate IsVersion(v: string) {
    IsDigits(v) || exists i | 0 < i < |v| :: v[i] == '.' && IsDigits(v[..i]) && IsVersion(v[i + 1..])
  }

  datatype ParsedCid = ParsedCid(version: string, digest: string)

  function FormatCid(digest: string, version: string): string { "v" + version + "-" + digest }

  /** The versioned form from its fixed end: 64 digits, a dash, and a version after the `v`. */
  function ParseCid(cid: string): Option<ParsedCid> {
    if |cid| < 66 || cid[0] != 'v' || cid[|cid| - 65] != '-' then None
    else
      var version, digest := cid[1..|cid| - 65], cid[|cid| - 64..];
      if IsVersion(version) && IsDigest(digest) then Some(ParsedCid(version, digest)) else None
  }

  /** A text parses exactly when it is some version and digest formatted, and it parses to those. */
  lemma CidRoundTrip(cid: string, version: string, digest: string)
    ensures ParseCid(cid) == Some(ParsedCid(version, digest))
            <==> cid == FormatCid(digest, version) && IsVersion(version) && IsDigest(digest)
  {
    var text := FormatCid(digest, version);
    if IsVersion(version) && IsDigest(digest) {
      assert text[1..|text| - 65] == version && text[|text| - 64..] == digest;
    }
    if ParseCid(cid) == Some(ParsedCid(version, digest)) {
      assert cid == [cid[0]] + cid[1..|cid| - 65] + [cid[|cid| - 65]] + cid[|cid| - 64..];
    }
  }

  /** The hash, as it is relied on: 64 hex digits, and never the same for two texts. */
  ghost predicate IsHash(hash: string -> string) {
    (forall t :: IsDigest(hash(t))) && (forall t, u :: hash(t) == hash(u) ==> t == u)
  }

  ghost function HashContent(p: Printer, hash: string -> string, n: Node): string {
    "v" + VERSION + "-" + hash(NodeText(p, n))
  }

  predicate IsCurrentCid(cid: string) { "v" + VERSION + "-" <= cid && ParseCid(cid).Some? }

  ghost predicate VerifyCid(p: Printer, hash: string -> string, cid: string, n: Node) {
    IsCurrentCid(cid) && HashContent(p, hash, n) == cid
  }

  lemma VersionIsVersion()
    ensures IsVersion(VERSION)
  {
    assert VERSION[..1] == "0" && VERSION[2..] == "0.7" && VERSION[2..][..1] == "0" && VERSION[2..][2..] == "7";
    assert IsDigits("0") && IsDigits("7") && IsVersion("7");
    assert IsVersion("0.7") by { assert "0.7"[1] == '.' && "0.7"[..1] == "0" && "0.7"[2..] == "7"; }
  }

  /**
   * A node's cid is of this data version, carries the digest of its text, and is the only node's it verifies, up to
   * `Normal`.
   */
  lemma CidNamesContent(p: Printer, hash: string -> string, a: Node, b: Node)
    requires IsPrinter(p) && IsHash(hash)
    ensures IsCurrentCid(HashContent(p, hash, a))
    ensures ParseCid(HashContent(p, hash, a)) == Some(ParsedCid(VERSION, hash(NodeText(p, a))))
    ensures VerifyCid(p, hash, HashContent(p, hash, a), b)
            <==> a.children == b.children && Normal(Obj(a.data)) == Normal(Obj(b.data))
  {
    var d, e := hash(NodeText(p, a)), hash(NodeText(p, b));
    VersionIsVersion();
    assert HashContent(p, hash, a) == FormatCid(d, VERSION);
    CidRoundTrip(HashContent(p, hash, a), VERSION, d);
    SameText(p, a, b);
    if HashContent(p, hash, a) == HashContent(p, hash, b) { Suffix("v" + VERSION + "-", d, e); }
  }
}
