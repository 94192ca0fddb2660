/** The canonical text that is hashed into a consent revision
    (agent/lib/channel-consent.ts:92-106). */
module ConsentRevision {

  datatype Member = Member(key: string, value: Json)

  /** A JSON value; a number is its own JavaScript text. Objects keep insertion order. */
  datatype Json =
    | Null
    | Bool(value: bool)
    | Num(text: string)
    | Str(chars: string)
    | Arr(items: seq<Json>)
    | Obj(members: seq<Member>)

  // ---------------------------------------------------------------- JSON.stringify

  const HEX := "0123456789abcdef"

  function Escape(c: char): string {
    if c == '\"' then "\\\""
    else if c == '\\' then "\\\\"
    else if c as int == 8 then "\\b"
    else if c as int == 9 then "\\t"
    else if c as int == 10 then "\\n"
    else if c as int == 12 then "\\f"
    else if c as int == 13 then "\\r"
    else if c as int < 32 then "\\u00" + [HEX[c as int / 16], HEX[c as int % 16]]
    else [c]
  }

  function EscapeAll(s: string): string {
    if s == "" then "" else Escape(s[0]) + EscapeAll(s[1..])
  }

  function Quote(s: string): string { "\"" + EscapeAll(s) + "\"" }

  function Text(j: Json): string
    decreases j, 0
  {
    match j
    case Null => "null"
    case Bool(b) => if b then "true" else "false"
    case Num(text) => text
    case Str(s) => Quote(s)
    case Arr(items) => "[" + ItemsText(items)
    case Obj(members) => "{" + MembersText(members)
  }

  /** The items with their commas and the closing bracket. */
  function ItemsText(items: seq<Json>): string
    decreases items, 1
  {
    if items == [] then "]"
    else Text(items[0]) + (if |items| == 1 then "]" else "," + ItemsText(items[1..]))
  }

  function MembersText(members: seq<Member>): string
    decreases members, 1
  {
    if members == [] then "}"
    else Quote(members[0].key) + ":" + Text(members[0].value)
         + (if |members| == 1 then "}" else "," + MembersText(members[1..]))
  }

  // ---------------------------------------------------------------- the replacer: sorted keys at every depth

  /** `collation` ranks keys as the rewritten object lists them: integer-like keys first, the others as
      `localeCompare` does; keys it finds equal share a rank. */
  type Collation = string -> real

  function Insert(m: Member, sorted: seq<Member>, collation: Collation): seq<Member> {
    if sorted == [] || collation(m.key) <= collation(sorted[0].key) then [m] + sorted
    else [sorted[0]] + Insert(m, sorted[1..], collation)
  }

  /** The stable sort of `toSorted`. */
  function Sort(members: seq<Member>, collation: Collation): seq<Member> {
    if members == [] then [] else Insert(members[0], Sort(members[1..], collation), collation)
  }

  function Canon(j: Json, collation: Collation): Json
    decreases j, 0
  {
    match j
    case Arr(items) => Arr(CanonItems(items, collation))
    case Obj(members) => Obj(Sort(CanonMembers(members, collation), collation))
    case _ => j
  }

  function CanonItems(items: seq<Json>, collation: Collation): (r: seq<Json>)
    ensures |r| == |items|
    ensures forall i :: 0 <= i < |items| ==> r[i] == Canon(items[i], collation)
    decreases items, 1
  {
    if items == [] then [] else [Canon(items[0], collation)] + CanonItems(items[1..], collation)
  }

  function CanonMembers(members: seq<Member>, collation: Collation): (r: seq<Member>)
    ensures |r| == |members|
    ensures forall i :: 0 <= i < |members| ==>
              r[i].key == members[i].key && r[i].value == Canon(members[i].value, collation)
    decreases members, 1
  {
    if members == [] then []
    else [Member(members[0].key, Canon(members[0].value, collation))] + CanonMembers(members[1..], collation)
  }

  /** The source sorts an object first and rewrites its values after; the order of the two does not matter. */
  lemma {:induction false} SortBeforeOrAfter(members: seq<Member>, collation: Collation)
    ensures CanonMembers(Sort(members, collation), collation) == Sort(CanonMembers(members, collation), collation)
  {
    if members != [] {
      var m, rest := members[0], Sort(members[1..], collation);
      SortBeforeOrAfter(members[1..], collation);
      InsertCommutes(m, rest, collation);
    }
  }

  lemma {:induction false} InsertCommutes(m: Member, sorted: seq<Member>, collation: Collation)
    ensures CanonMembers(Insert(m, sorted, collation), collation)
         == Insert(Member(m.key, Canon(m.value, collation)), CanonMembers(sorted, collation), collation)
  {
    if sorted == [] || collation(m.key) <= collation(sorted[0].key) {
      assert ([m] + sorted)[1..] == sorted;
    } else {
      InsertCommutes(m, sorted[1..], collation);
      assert ([sorted[0]] + Insert(m, sorted[1..], collation))[1..] == Insert(m, sorted[1..], collation);
    }
  }

  function Serialized(j: Json, collation: Collation): string { Text(Canon(j, collation)) }

  // ---------------------------------------------------------------- what two requests having one revision means

  function Keys(members: seq<Member>): set<string> { set m | m in members :: m.key }

  /** Equal up to object key order at every depth; array order counts. */
  ghost predicate SameUpToKeyOrder(a: Json, b: Json)
    decreases a
  {
    match (a, b)
    case (Arr(xs), Arr(ys)) => |xs| == |ys| && forall i | 0 <= i < |xs| :: SameUpToKeyOrder(xs[i], ys[i])
    case (Obj(ms), Obj(ns)) =>
      Keys(ms) == Keys(ns) && forall m, n | m in ms && n in ns && m.key == n.key :: SameUpToKeyOrder(m.value, n.value)
    case (_, _) => a == b
  }

  predicate DistinctKeys(members: seq<Member>) {
    forall i, j | 0 <= i < j < |members| :: members[i].key != members[j].key
  }

  predicate NumberChar(c: char) { '0' <= c <= '9' || c in "-+.e" }

  predicate NumberText(text: string) {
    text != "" && ('0' <= text[0] <= '9' || text[0] == '-') && forall i | 0 <= i < |text| :: NumberChar(text[i])
  }

  /** Every object has distinct keys and every number is number text. */
  predicate Valid(j: Json)
    decreases j
  {
    match j
    case Num(text) => NumberText(text)
    case Arr(items) => forall i | 0 <= i < |items| :: Valid(items[i])
    case Obj(members) => DistinctKeys(members) && forall i | 0 <= i < |members| :: Valid(members[i].value)
    case _ => true
  }

  predicate RanksDistinct(members: seq<Member>, collation: Collation) {
    forall i, j | 0 <= i < j < |members| :: collation(members[i].key) != collation(members[j].key)
  }

  /** In every object, at every depth, no two keys tie. */
  predicate Untied(j: Json, collation: Collation)
    decreases j
  {
    match j
    case Arr(items) => forall i | 0 <= i < |items| :: Untied(items[i], collation)
    case Obj(members) =>
      RanksDistinct(members, collation) && forall i | 0 <= i < |members| :: Untied(members[i].value, collation)
    case _ => true
  }

  // ---------------------------------------------------------------- the text determines the value

  lemma Assoc(a: string, b: string, c: string)
    ensures (a + b) + c == a + (b + c)
  {
  }

  lemma Strip(p: string, x: string, q: string, y: string)
    requires p + x == q + y && |p| == |q|
    ensures p == q && x == y
  {
    var v, w := p + x, q + y;
    assert p == v[..|p|] && q == w[..|q|] && x == v[|p|..] && y == w[|q|..];
  }

  lemma FirstOf(p: string, x: string)
    requires p != ""
    ensures p + x != "" && (p + x)[0] == p[0]
  {
  }

  /** The first two characters of an escape tell how long it is. */
  lemma EscapeLength(c: char)
    ensures var e := Escape(c);
            && |e| > 0 && (|e| == 1 <==> e[0] != '\\') && (|e| > 1 ==> |e| == if e[1] == 'u' then 6 else 2)
  {
  }

  lemma EscapeIsInjective(c: char, d: char)
    requires Escape(c) == Escape(d)
    ensures c == d
  {
    if |Escape(c)| == 6 {
      assert Escape(c)[4] == Escape(d)[4] && Escape(c)[5] == Escape(d)[5];
      HexDigits(c as int / 16, d as int / 16);
      HexDigits(c as int % 16, d as int % 16);
    }
  }

  lemma EscapeDecodes(c: char, d: char, x: string, y: string)
    requires Escape(c) + x == Escape(d) + y
    ensures c == d && x == y
  {
    var v := Escape(c) + x;
    EscapeLength(c);
    EscapeLength(d);
    assert forall i | 0 <= i < |Escape(c)| :: v[i] == Escape(c)[i];
    assert forall i | 0 <= i < |Escape(d)| :: v[i] == Escape(d)[i];
    assert v[0] == Escape(c)[0] == Escape(d)[0];
    assert |Escape(c)| == |Escape(d)|;
    Strip(Escape(c), x, Escape(d), y);
    EscapeIsInjective(c, d);
  }

  lemma HexDigits(a: nat, b: nat)
    requires a < 16 && b < 16
    ensures HEX[a] == HEX[b] ==> a == b
  {
  }

  lemma {:induction false} QuotedDecodes(s: string, t: string, x: string, y: string)
    requires EscapeAll(s) + ("\"" + x) == EscapeAll(t) + ("\"" + y)
    ensures s == t && x == y
  {
    var u, v := "\"" + x, "\"" + y;
    EscapedStarts(s, u);
    EscapedStarts(t, v);
    if s != "" && t != "" {
      EscapeDecodes(s[0], t[0], EscapeAll(s[1..]) + u, EscapeAll(t[1..]) + v);
      QuotedDecodes(s[1..], t[1..], x, y);
    } else {
      Strip("\"", x, "\"", y);
    }
  }

  /** Escaped text before a tail starts with its first escape, which is no quote, or is empty. */
  lemma EscapedStarts(s: string, u: string)
    ensures s == "" ==> EscapeAll(s) + u == u
    ensures s != "" ==> EscapeAll(s) + u == Escape(s[0]) + (EscapeAll(s[1..]) + u) && (EscapeAll(s) + u)[0] != '\"'
  {
    if s != "" {
      Assoc(Escape(s[0]), EscapeAll(s[1..]), u);
      FirstOf(Escape(s[0]), EscapeAll(s[1..]) + u);
    }
  }

  predicate Delimited(x: string) { x == "" || !NumberChar(x[0]) }

  /** Number text ends where number characters end. */
  lemma {:induction false} NumberDecodes(s: string, t: string, x: string, y: string)
    requires forall i | 0 <= i < |s| :: NumberChar(s[i])
    requires forall i | 0 <= i < |t| :: NumberChar(t[i])
    requires Delimited(x) && Delimited(y)
    requires s + x == t + y
    ensures s == t && x == y
  {
    if s != "" {
      FirstOf(s, x);
      assert s + x == s[..1] + (s[1..] + x);
    }
    if t != "" {
      FirstOf(t, y);
      assert t + y == t[..1] + (t[1..] + y);
    }
    if s != "" && t != "" {
      Strip(s[..1], s[1..] + x, t[..1], t[1..] + y);
      NumberDecodes(s[1..], t[1..], x, y);
      assert s == s[..1] + s[1..] && t == t[..1] + t[1..];
    } else {
      assert s + x == if s == "" then x else s + x;
      assert t + y == if t == "" then y else t + y;
    }
  }

  lemma FirstChar(j: Json)
    requires Valid(j)
    ensures Text(j) != ""
    ensures var c := Text(j)[0];
            match j
            case Null => c == 'n'
            case Bool(b) => c == if b then 't' else 'f'
            case Num(_) => '0' <= c <= '9' || c == '-'
            case Str(_) => c == '\"'
            case Arr(_) => c == '['
            case Obj(_) => c == '{'
  {
  }

  /** The first character already tells the constructor. */
  lemma SameShape(a: Json, b: Json, x: string, y: string)
    requires Valid(a) && Valid(b) && Text(a) + x == Text(b) + y
    ensures (a.Null? <==> b.Null?) && (a.Num? <==> b.Num?) && (a.Str? <==> b.Str?)
    ensures (a.Arr? <==> b.Arr?) && (a.Obj? <==> b.Obj?) && (a.Bool? ==> a == b)
  {
    FirstChar(a);
    FirstChar(b);
    FirstOf(Text(a), x);
    FirstOf(Text(b), y);
  }

  /** JSON text is self-delimiting: the value and the rest can be read back from it. */
  lemma {:induction false} TextDecodes(a: Json, b: Json, x: string, y: string)
    requires Valid(a) && Valid(b) && Delimited(x) && Delimited(y)
    requires Text(a) + x == Text(b) + y
    ensures a == b && x == y
    decreases a, 0
  {
    SameShape(a, b, x, y);
    match a {
      case Null => Strip("null", x, "null", y);
      case Bool(_) => Strip(Text(a), x, Text(a), y);
      case Num(_) => NumberDecodes(a.text, b.text, x, y);
      case Str(_) =>
        QuoteStrips(a.chars, x);
        QuoteStrips(b.chars, y);
        Strip("\"", EscapeAll(a.chars) + ("\"" + x), "\"", EscapeAll(b.chars) + ("\"" + y));
        QuotedDecodes(a.chars, b.chars, x, y);
      case Arr(_) =>
        Assoc("[", ItemsText(a.items), x);
        Assoc("[", ItemsText(b.items), y);
        Strip("[", ItemsText(a.items) + x, "[", ItemsText(b.items) + y);
        ItemsDecode(a.items, b.items, x, y);
      case Obj(_) =>
        Assoc("{", MembersText(a.members), x);
        Assoc("{", MembersText(b.members), y);
        Strip("{", MembersText(a.members) + x, "{", MembersText(b.members) + y);
        MembersDecode(a.members, b.members, x, y);
    }
  }

  lemma TextIsInjective(a: Json, b: Json)
    requires Valid(a) && Valid(b) && Text(a) == Text(b)
    ensures a == b
  {
    assert Text(a) + "" == Text(b) + "";
    TextDecodes(a, b, "", "");
  }

  lemma QuoteStrips(s: string, x: string)
    ensures Quote(s) + x == "\"" + (EscapeAll(s) + ("\"" + x))
  {
  }

  /** What follows the first element of a list: a comma and more, or the closing bracket. */
  lemma TailDecodes(close: string, one: bool, more: string, x: string, other: bool, others: string, y: string)
    requires |close| == 1 && close != ","
    requires (if one then close else "," + more) + x == (if other then close else "," + others) + y
    ensures one == other
    ensures if one then x == y else more + x == others + y
  {
    var v, w := (if one then close else "," + more) + x, (if other then close else "," + others) + y;
    assert v[0] == if one then close[0] else ',';
    assert w[0] == if other then close[0] else ',';
    if one {
      Strip(close, x, close, y);
    } else {
      Assoc(",", more, x);
      Assoc(",", others, y);
      Strip(",", more + x, ",", others + y);
    }
  }

  lemma {:induction false} ItemsDecode(xs: seq<Json>, ys: seq<Json>, x: string, y: string)
    requires forall i | 0 <= i < |xs| :: Valid(xs[i])
    requires forall i | 0 <= i < |ys| :: Valid(ys[i])
    requires ItemsText(xs) + x == ItemsText(ys) + y
    ensures xs == ys && x == y
    decreases xs, 1
  {
    ItemsStart(xs, x);
    ItemsStart(ys, y);
    if xs == [] || ys == [] {
      Strip("]", x, "]", y);
    } else {
      var u := if |xs| == 1 then "]" else "," + ItemsText(xs[1..]);
      var v := if |ys| == 1 then "]" else "," + ItemsText(ys[1..]);
      Assoc(Text(xs[0]), u, x);
      Assoc(Text(ys[0]), v, y);
      FirstOf(u, x);
      FirstOf(v, y);
      TextDecodes(xs[0], ys[0], u + x, v + y);
      TailDecodes("]", |xs| == 1, ItemsText(xs[1..]), x, |ys| == 1, ItemsText(ys[1..]), y);
      if |xs| != 1 {
        ItemsDecode(xs[1..], ys[1..], x, y);
      }
    }
  }

  lemma ItemsStart(xs: seq<Json>, x: string)
    requires forall i | 0 <= i < |xs| :: Valid(xs[i])
    ensures ItemsText(xs) + x != "" && ((ItemsText(xs) + x)[0] == ']' <==> xs == [])
  {
    if xs != [] {
      FirstChar(xs[0]);
    }
  }

  lemma {:induction false} MembersDecode(ms: seq<Member>, ns: seq<Member>, x: string, y: string)
    requires forall i | 0 <= i < |ms| :: Valid(ms[i].value)
    requires forall i | 0 <= i < |ns| :: Valid(ns[i].value)
    requires MembersText(ms) + x == MembersText(ns) + y
    ensures ms == ns && x == y
    decreases ms, 1
  {
    MembersStart(ms, x);
    MembersStart(ns, y);
    if ms == [] || ns == [] {
      Strip("}", x, "}", y);
    } else {
      var u := (if |ms| == 1 then "}" else "," + MembersText(ms[1..]));
      var v := (if |ns| == 1 then "}" else "," + MembersText(ns[1..]));
      var s, t := ":" + (Text(ms[0].value) + (u + x)), ":" + (Text(ns[0].value) + (v + y));
      MemberSplits(ms[0], u, x);
      MemberSplits(ns[0], v, y);
      Strip("\"", EscapeAll(ms[0].key) + ("\"" + s), "\"", EscapeAll(ns[0].key) + ("\"" + t));
      QuotedDecodes(ms[0].key, ns[0].key, s, t);
      Strip(":", Text(ms[0].value) + (u + x), ":", Text(ns[0].value) + (v + y));
      FirstOf(u, x);
      FirstOf(v, y);
      TextDecodes(ms[0].value, ns[0].value, u + x, v + y);
      TailDecodes("}", |ms| == 1, MembersText(ms[1..]), x, |ns| == 1, MembersText(ns[1..]), y);
      if |ms| != 1 {
        MembersDecode(ms[1..], ns[1..], x, y);
      }
    }
  }

  lemma MemberSplits(m: Member, u: string, x: string)
    ensures Quote(m.key) + ":" + Text(m.value) + u + x
         == "\"" + (EscapeAll(m.key) + ("\"" + (":" + (Text(m.value) + (u + x)))))
  {
  }

  lemma MembersStart(ms: seq<Member>, x: string)
    ensures MembersText(ms) + x != "" && ((MembersText(ms) + x)[0] == '}' <==> ms == [])
  {
    assert ms != [] ==> MembersText(ms)[0] == '\"';
  }

  // ---------------------------------------------------------------- sorting

  ghost predicate Ascending(members: seq<Member>, collation: Collation) {
    forall i, j | 0 <= i < j < |members| :: collation(members[i].key) < collation(members[j].key)
  }

  lemma {:induction false} InsertKeepsMembers(m: Member, sorted: seq<Member>, collation: Collation)
    ensures forall n :: n in Insert(m, sorted, collation) <==> n == m || n in sorted
    ensures |Insert(m, sorted, collation)| == |sorted| + 1
  {
    if !(sorted == [] || collation(m.key) <= collation(sorted[0].key)) {
      InsertKeepsMembers(m, sorted[1..], collation);
    }
  }

  lemma {:induction false} SortKeepsMembers(members: seq<Member>, collation: Collation)
    ensures forall n :: n in Sort(members, collation) <==> n in members
    ensures |Sort(members, collation)| == |members|
  {
    if members != [] {
      SortKeepsMembers(members[1..], collation);
      InsertKeepsMembers(members[0], Sort(members[1..], collation), collation);
    }
  }

  lemma {:induction false} InsertAscends(m: Member, sorted: seq<Member>, collation: Collation)
    requires Ascending(sorted, collation)
    requires forall n | n in sorted :: collation(n.key) != collation(m.key)
    ensures Ascending(Insert(m, sorted, collation), collation)
  {
    if sorted == [] || collation(m.key) <= collation(sorted[0].key) {
      assert sorted != [] ==> sorted[0] in sorted;
    } else {
      InsertAscends(m, sorted[1..], collation);
      InsertKeepsMembers(m, sorted[1..], collation);
      var rest := Insert(m, sorted[1..], collation);
      forall j | 0 <= j < |rest| ensures collation(sorted[0].key) < collation(rest[j].key) {
        assert rest[j] in rest;
      }
    }
  }

  lemma {:induction false} SortAscends(members: seq<Member>, collation: Collation)
    requires RanksDistinct(members, collation)
    ensures Ascending(Sort(members, collation), collation)
  {
    if members != [] {
      SortAscends(members[1..], collation);
      SortKeepsMembers(members[1..], collation);
      forall n | n in Sort(members[1..], collation) ensures collation(n.key) != collation(members[0].key) {
        assert n in members[1..];
      }
      InsertAscends(members[0], Sort(members[1..], collation), collation);
    }
  }

  /** An ascending list is determined by its members. */
  lemma {:induction false} AscendingIsUnique(ms: seq<Member>, ns: seq<Member>, collation: Collation)
    requires Ascending(ms, collation) && Ascending(ns, collation)
    requires forall m :: m in ms <==> m in ns
    ensures ms == ns
  {
    if ns != [] {
      assert ns[0] in ms;
    }
    if ms != [] {
      assert ms[0] in ns && ns[0] in ms;
      assert ms[0] == ns[0];
      assert ms == [ms[0]] + ms[1..] && ns == [ns[0]] + ns[1..];
      forall m | m in ms[1..] ensures m in ns[1..] {
        var i :| 0 <= i < |ms[1..]| && ms[1..][i] == m;
        assert collation(ms[0].key) < collation(ms[i + 1].key);
        assert ms[i + 1] in ms && m in ns && m != ns[0];
      }
      forall n | n in ns[1..] ensures n in ms[1..] {
        var i :| 0 <= i < |ns[1..]| && ns[1..][i] == n;
        assert collation(ns[0].key) < collation(ns[i + 1].key);
        assert ns[i + 1] in ns && n in ms && n != ms[0];
      }
      AscendingIsUnique(ms[1..], ns[1..], collation);
    }
  }

  // ---------------------------------------------------------------- canonical forms

  lemma {:induction false} CanonValid(j: Json, collation: Collation)
    requires Valid(j)
    ensures Valid(Canon(j, collation))
  {
    match j {
      case Arr(items) =>
        forall i | 0 <= i < |items| ensures Valid(CanonItems(items, collation)[i]) {
          CanonValid(items[i], collation);
        }
      case Obj(members) =>
        var canon := CanonMembers(members, collation);
        forall n | n in canon ensures Valid(n.value) {
          var i :| 0 <= i < |canon| && canon[i] == n;
          CanonValid(members[i].value, collation);
        }
        SortKeepsMembers(canon, collation);
        SortKeepsDistinct(canon, collation);
      case _ =>
    }
  }

  lemma {:induction false} SortKeepsDistinct(members: seq<Member>, collation: Collation)
    requires DistinctKeys(members)
    ensures DistinctKeys(Sort(members, collation))
  {
    if members != [] {
      SortKeepsDistinct(members[1..], collation);
      SortKeepsMembers(members[1..], collation);
      forall n | n in Sort(members[1..], collation) ensures n.key != members[0].key {
        assert n in members[1..];
      }
      InsertKeepsDistinct(members[0], Sort(members[1..], collation), collation);
    }
  }

  lemma {:induction false} InsertKeepsDistinct(m: Member, sorted: seq<Member>, collation: Collation)
    requires DistinctKeys(sorted) && forall n | n in sorted :: n.key != m.key
    ensures DistinctKeys(Insert(m, sorted, collation))
  {
    if !(sorted == [] || collation(m.key) <= collation(sorted[0].key)) {
      InsertKeepsDistinct(m, sorted[1..], collation);
      InsertKeepsMembers(m, sorted[1..], collation);
      var rest := Insert(m, sorted[1..], collation);
      forall j | 0 <= j < |rest| ensures rest[j].key != sorted[0].key {
        assert rest[j] in rest;
        if rest[j] != m {
          var i :| 0 <= i < |sorted[1..]| && sorted[1..][i] == rest[j];
          assert sorted[i + 1] == rest[j];
        }
      }
    }
  }

  function CanonMember(m: Member, collation: Collation): Member { Member(m.key, Canon(m.value, collation)) }

  lemma CanonMembersAre(members: seq<Member>, collation: Collation)
    ensures forall m | m in members :: CanonMember(m, collation) in CanonMembers(members, collation)
    ensures forall c | c in CanonMembers(members, collation) ::
              exists m :: m in members && c == CanonMember(m, collation)
  {
    var canon := CanonMembers(members, collation);
    forall m | m in members ensures CanonMember(m, collation) in canon {
      var i :| 0 <= i < |members| && members[i] == m;
      assert canon[i] == CanonMember(m, collation);
    }
    forall c | c in canon ensures exists m :: m in members && c == CanonMember(m, collation) {
      var i :| 0 <= i < |canon| && canon[i] == c;
      assert members[i] in members && c == CanonMember(members[i], collation);
    }
  }

  /** Objects whose members match one to one, whatever their order, have one canonical form. */
  lemma MatchingObjects(ms: seq<Member>, ns: seq<Member>, collation: Collation)
    requires RanksDistinct(ms, collation) && RanksDistinct(ns, collation)
    requires forall m | m in ms :: exists n :: n in ns && CanonMember(n, collation) == CanonMember(m, collation)
    requires forall n | n in ns :: exists m :: m in ms && CanonMember(n, collation) == CanonMember(m, collation)
    ensures Canon(Obj(ms), collation) == Canon(Obj(ns), collation)
  {
    var cs, ds := CanonMembers(ms, collation), CanonMembers(ns, collation);
    CanonMembersAre(ms, collation);
    CanonMembersAre(ns, collation);
    SortKeepsMembers(cs, collation);
    SortKeepsMembers(ds, collation);
    SortAscends(cs, collation);
    SortAscends(ds, collation);
    AscendingIsUnique(Sort(cs, collation), Sort(ds, collation), collation);
  }

  lemma {:induction false} SameMeansSameCanon(a: Json, b: Json, collation: Collation)
    requires Valid(a) && Valid(b) && Untied(a, collation) && SameUpToKeyOrder(a, b)
    ensures Canon(a, collation) == Canon(b, collation)
    decreases a, 2
  {
    match a {
      case Arr(_) => SameArraysSameCanon(a, b, collation);
      case Obj(_) => SameObjectsSameCanon(a, b, collation);
      case _ =>
    }
  }

  lemma {:induction false} SameArraysSameCanon(a: Json, b: Json, collation: Collation)
    requires a.Arr? && b.Arr? && Valid(a) && Valid(b) && Untied(a, collation) && SameUpToKeyOrder(a, b)
    ensures Canon(a, collation) == Canon(b, collation)
    decreases a, 1
  {
    forall i | 0 <= i < |a.items| ensures Canon(a.items[i], collation) == Canon(b.items[i], collation) {
      SameMeansSameCanon(a.items[i], b.items[i], collation);
    }
    assert CanonItems(a.items, collation) == CanonItems(b.items, collation);
  }

  lemma {:induction false} SameObjectsSameCanon(a: Json, b: Json, collation: Collation)
    requires a.Obj? && b.Obj? && Valid(a) && Valid(b) && Untied(a, collation) && SameUpToKeyOrder(a, b)
    ensures Canon(a, collation) == Canon(b, collation)
    decreases a, 1
  {
    var ms, ns := a.members, b.members;
    forall m, n | m in ms && n in ns && m.key == n.key ensures CanonMember(n, collation) == CanonMember(m, collation) {
      SameMembersSameCanon(a, b, m, n, collation);
    }
    forall m | m in ms ensures exists n :: n in ns && CanonMember(n, collation) == CanonMember(m, collation) {
      assert m.key in Keys(ms);
      var n :| n in ns && n.key == m.key;
    }
    forall n | n in ns ensures exists m :: m in ms && CanonMember(n, collation) == CanonMember(m, collation) {
      assert n.key in Keys(ns);
      var m :| m in ms && n.key == m.key;
    }
    SameKeysSameRanks(ms, ns, collation);
    MatchingObjects(ms, ns, collation);
  }

  lemma SameKeysSameRanks(ms: seq<Member>, ns: seq<Member>, collation: Collation)
    requires Keys(ns) <= Keys(ms) && DistinctKeys(ns) && RanksDistinct(ms, collation)
    ensures RanksDistinct(ns, collation)
  {
    forall i, j | 0 <= i < j < |ns| ensures collation(ns[i].key) != collation(ns[j].key) {
      assert ns[i].key in Keys(ns) && ns[j].key in Keys(ns);
      var m :| m in ms && m.key == ns[i].key;
      var n :| n in ms && n.key == ns[j].key;
      assert m != n;
    }
  }

  lemma {:induction false} SameMembersSameCanon(a: Json, b: Json, m: Member, n: Member, collation: Collation)
    requires a.Obj? && b.Obj? && Valid(a) && Valid(b) && Untied(a, collation)
    requires m in a.members && n in b.members && n.key == m.key && SameUpToKeyOrder(m.value, n.value)
    ensures CanonMember(n, collation) == CanonMember(m, collation)
    decreases a, 0
  {
    MemberValid(a.members, m);
    MemberValid(b.members, n);
    MemberUntied(a.members, m, collation);
    SameMeansSameCanon(m.value, n.value, collation);
  }

  /** One canonical form, so every member has a partner with its key and canonical value. */
  lemma EqualCanonPartner(ms: seq<Member>, ns: seq<Member>, m: Member, collation: Collation) returns (n: Member)
    requires Canon(Obj(ms), collation) == Canon(Obj(ns), collation) && m in ms
    ensures n in ns && n.key == m.key && CanonMember(n, collation) == CanonMember(m, collation)
  {
    CanonMembersAre(ms, collation);
    CanonMembersAre(ns, collation);
    SortKeepsMembers(CanonMembers(ms, collation), collation);
    SortKeepsMembers(CanonMembers(ns, collation), collation);
    assert CanonMember(m, collation) in CanonMembers(ns, collation);
    n :| n in ns && CanonMember(m, collation) == CanonMember(n, collation);
  }

  /** With distinct keys, members that match at all match by key. */
  lemma MatchedByKey(ms: seq<Member>, ns: seq<Member>, collation: Collation)
    requires DistinctKeys(ns) && Canon(Obj(ms), collation) == Canon(Obj(ns), collation)
    ensures Keys(ms) <= Keys(ns)
    ensures forall m, n | m in ms && n in ns && m.key == n.key :: CanonMember(n, collation) == CanonMember(m, collation)
  {
    forall m | m in ms
      ensures m.key in Keys(ns)
      ensures forall n | n in ns && m.key == n.key :: CanonMember(n, collation) == CanonMember(m, collation)
    {
      var partner := EqualCanonPartner(ms, ns, m, collation);
      forall n | n in ns && m.key == n.key ensures n == partner {
        DistinctMember(ns, n, partner);
      }
    }
  }

  lemma DistinctMember(members: seq<Member>, m: Member, n: Member)
    requires DistinctKeys(members) && m in members && n in members && m.key == n.key
    ensures m == n
  {
  }

  lemma {:induction false} SameCanonMeansSame(a: Json, b: Json, collation: Collation)
    requires Valid(a) && Valid(b) && Canon(a, collation) == Canon(b, collation)
    ensures SameUpToKeyOrder(a, b)
    decreases a
  {
    match a {
      case Arr(xs) =>
        forall i | 0 <= i < |xs| ensures SameUpToKeyOrder(xs[i], b.items[i]) {
          assert CanonItems(xs, collation)[i] == CanonItems(b.items, collation)[i];
          SameCanonMeansSame(xs[i], b.items[i], collation);
        }
      case Obj(ms) =>
        MatchedByKey(ms, b.members, collation);
        MatchedByKey(b.members, ms, collation);
        forall m, n | m in ms && n in b.members && m.key == n.key ensures SameUpToKeyOrder(m.value, n.value) {
          assert CanonMember(n, collation) == CanonMember(m, collation);
          MemberValid(ms, m);
          MemberValid(b.members, n);
          SameCanonMeansSame(m.value, n.value, collation);
        }
      case _ =>
    }
  }

  lemma MemberValid(members: seq<Member>, m: Member)
    requires Valid(Obj(members)) && m in members
    ensures Valid(m.value)
  {
  }

  lemma MemberUntied(members: seq<Member>, m: Member, collation: Collation)
    requires Untied(Obj(members), collation) && m in members
    ensures Untied(m.value, collation)
  {
  }

  // ---------------------------------------------------------------- every object written backwards

  function Backwards(j: Json): Json
    decreases j, 0
  {
    match j
    case Arr(items) => Arr(BackwardsItems(items))
    case Obj(members) => Obj(BackwardsMembers(members))
    case _ => j
  }

  function BackwardsItems(items: seq<Json>): (r: seq<Json>)
    ensures |r| == |items| && forall i | 0 <= i < |items| :: r[i] == Backwards(items[i])
    decreases items, 1
  {
    if items == [] then [] else [Backwards(items[0])] + BackwardsItems(items[1..])
  }

  function BackwardsMembers(members: seq<Member>): (r: seq<Member>)
    ensures |r| == |members|
    decreases members, 1
  {
    if members == [] then []
    else BackwardsMembers(members[1..]) + [Member(members[0].key, Backwards(members[0].value))]
  }

  function BackwardsMember(m: Member): Member { Member(m.key, Backwards(m.value)) }

  /** The member read from the other end. */
  lemma {:induction false} BackwardsAt(members: seq<Member>, i: nat)
    requires i < |members|
    ensures BackwardsMembers(members)[i] == BackwardsMember(members[|members| - 1 - i])
    decreases |members|
  {
    if i < |members| - 1 {
      BackwardsAt(members[1..], i);
    }
  }

  lemma {:induction false} BackwardsKeepsMembers(members: seq<Member>)
    ensures forall m | m in members :: BackwardsMember(m) in BackwardsMembers(members)
    ensures forall n | n in BackwardsMembers(members) :: exists m | m in members :: n == BackwardsMember(m)
    decreases |members|
  {
    if members != [] {
      BackwardsKeepsMembers(members[1..]);
      forall n | n in BackwardsMembers(members) ensures exists m | m in members :: n == BackwardsMember(m) {
        if n == BackwardsMember(members[0]) {
          assert members[0] in members;
        } else {
          assert n in BackwardsMembers(members[1..]);
          var m :| m in members[1..] && n == BackwardsMember(m);
          assert m in members;
        }
      }
    }
  }

  lemma BackwardsKeepsKeys(members: seq<Member>)
    ensures Keys(BackwardsMembers(members)) == Keys(members)
  {
    BackwardsKeepsMembers(members);
    forall m | m in members ensures m.key in Keys(BackwardsMembers(members)) {
      assert BackwardsMember(m).key == m.key;
    }
  }

  lemma BackwardsKeepsDistinct(members: seq<Member>)
    requires DistinctKeys(members)
    ensures DistinctKeys(BackwardsMembers(members))
  {
    var back := BackwardsMembers(members);
    forall i, j | 0 <= i < j < |back| ensures back[i].key != back[j].key {
      BackwardsAt(members, i);
      BackwardsAt(members, j);
    }
  }

  lemma {:induction false} BackwardsValid(j: Json)
    requires Valid(j)
    ensures Valid(Backwards(j))
    decreases j
  {
    match j {
      case Arr(items) =>
        forall i | 0 <= i < |items| ensures Valid(BackwardsItems(items)[i]) {
          BackwardsValid(items[i]);
        }
      case Obj(members) =>
        var back := BackwardsMembers(members);
        BackwardsKeepsDistinct(members);
        forall i | 0 <= i < |back| ensures Valid(back[i].value) {
          BackwardsAt(members, i);
          BackwardsValid(members[|back| - 1 - i].value);
        }
      case _ =>
    }
  }

  lemma {:induction false} BackwardsIsTheSame(j: Json)
    requires Valid(j)
    ensures SameUpToKeyOrder(j, Backwards(j))
    decreases j
  {
    match j {
      case Arr(items) =>
        forall i | 0 <= i < |items| ensures SameUpToKeyOrder(items[i], BackwardsItems(items)[i]) {
          BackwardsIsTheSame(items[i]);
        }
      case Obj(members) =>
        BackwardsKeepsKeys(members);
        forall m, n | m in members && n in BackwardsMembers(members) && m.key == n.key
          ensures SameUpToKeyOrder(m.value, n.value)
        {
          BackwardsPartner(members, m, n);
          MemberValid(members, m);
          BackwardsIsTheSame(m.value);
        }
      case _ =>
    }
  }

  lemma BackwardsPartner(members: seq<Member>, m: Member, n: Member)
    requires DistinctKeys(members) && m in members && n in BackwardsMembers(members) && m.key == n.key
    ensures n == BackwardsMember(m)
  {
    BackwardsKeepsMembers(members);
    var o :| o in members && n == BackwardsMember(o);
    DistinctMember(members, m, o);
  }

  /** One key stands before another. */
  ghost predicate Precedes(members: seq<Member>, k: string, l: string) {
    exists i, j | 0 <= i < j < |members| :: members[i].key == k && members[j].key == l
  }

  lemma {:induction false} InsertPrecedesTies(m: Member, sorted: seq<Member>, n: Member, collation: Collation)
    requires n in sorted && collation(m.key) <= collation(n.key)
    ensures Precedes(Insert(m, sorted, collation), m.key, n.key)
  {
    var r := Insert(m, sorted, collation);
    if collation(m.key) <= collation(sorted[0].key) {
      var j :| 0 <= j < |sorted| && sorted[j] == n;
      assert r[0] == m && r[j + 1] == n;
    } else {
      InsertPrecedesTies(m, sorted[1..], n, collation);
      PrecedesLater(sorted[0], Insert(m, sorted[1..], collation), m.key, n.key);
    }
  }

  lemma PrecedesLater(m: Member, members: seq<Member>, k: string, l: string)
    requires Precedes(members, k, l)
    ensures Precedes([m] + members, k, l)
  {
    var i, j :| 0 <= i < j < |members| && members[i].key == k && members[j].key == l;
    assert ([m] + members)[i + 1] == members[i] && ([m] + members)[j + 1] == members[j];
  }

  lemma {:induction false} InsertKeepsPrecedes(m: Member, sorted: seq<Member>, k: string, l: string, collation: Collation)
    requires Precedes(sorted, k, l)
    ensures Precedes(Insert(m, sorted, collation), k, l)
    decreases |sorted|
  {
    if collation(m.key) <= collation(sorted[0].key) {
      PrecedesLater(m, sorted, k, l);
    } else {
      var i, j :| 0 <= i < j < |sorted| && sorted[i].key == k && sorted[j].key == l;
      var rest := sorted[1..];
      var r := Insert(m, rest, collation);
      assert rest[j - 1] == sorted[j];
      if i > 0 {
        assert rest[i - 1] == sorted[i];
        InsertKeepsPrecedes(m, rest, k, l, collation);
        PrecedesLater(sorted[0], r, k, l);
      } else {
        InsertKeepsMembers(m, rest, collation);
        assert rest[j - 1] in r;
        var x :| 0 <= x < |r| && r[x] == rest[j - 1];
        assert ([sorted[0]] + r)[0].key == k && ([sorted[0]] + r)[x + 1].key == l;
      }
    }
  }

  /** Sorting is stable: keys that tie stay in the order they were written in. */
  lemma {:induction false} SortIsStable(members: seq<Member>, i: nat, j: nat, collation: Collation)
    requires i < j < |members| && collation(members[i].key) == collation(members[j].key)
    ensures Precedes(Sort(members, collation), members[i].key, members[j].key)
    decreases |members|
  {
    var rest := members[1..];
    SortKeepsMembers(rest, collation);
    assert rest[j - 1] == members[j] && rest[j - 1] in rest;
    if i == 0 {
      InsertPrecedesTies(members[0], Sort(rest, collation), members[j], collation);
    } else {
      assert rest[i - 1] == members[i];
      SortIsStable(rest, i - 1, j - 1, collation);
      InsertKeepsPrecedes(members[0], Sort(rest, collation), members[i].key, members[j].key, collation);
    }
  }

  lemma PrecedesOneWay(members: seq<Member>, k: string, l: string)
    requires DistinctKeys(members) && Precedes(members, k, l)
    ensures !Precedes(members, l, k)
  {
  }

  /** Two objects with a tied pair of keys in opposite orders. */
  lemma OppositeOrdersDiffer(a: seq<Member>, b: seq<Member>, i: nat, j: nat, x: nat, y: nat, collation: Collation)
    requires DistinctKeys(a) && DistinctKeys(b) && i < j < |a| && x < y < |b|
    requires a[i].key == b[y].key && a[j].key == b[x].key && collation(a[i].key) == collation(a[j].key)
    ensures Canon(Obj(a), collation) != Canon(Obj(b), collation)
  {
    CanonIsStable(a, i, j, collation);
    CanonIsStable(b, x, y, collation);
    PrecedesOneWay(Canon(Obj(a), collation).members, a[i].key, a[j].key);
  }

  lemma TiedObjectsDiffer(members: seq<Member>, collation: Collation)
    requires DistinctKeys(members) && !RanksDistinct(members, collation)
    ensures Canon(Obj(members), collation) != Canon(Obj(BackwardsMembers(members)), collation)
  {
    var i, j :| 0 <= i < j < |members| && collation(members[i].key) == collation(members[j].key);
    TiedPairDiffers(members, i, j, collation);
  }

  lemma TiedPairDiffers(members: seq<Member>, i: nat, j: nat, collation: Collation)
    requires DistinctKeys(members) && i < j < |members| && collation(members[i].key) == collation(members[j].key)
    ensures Canon(Obj(members), collation) != Canon(Obj(BackwardsMembers(members)), collation)
  {
    var back := BackwardsMembers(members);
    BackwardsKeepsDistinct(members);
    var x := FromTheEnd(members, i);
    var y := FromTheEnd(members, j);
    OppositeOrdersDiffer(members, back, i, j, y, x, collation);
  }

  lemma FromTheEnd(members: seq<Member>, i: nat) returns (x: nat)
    requires i < |members|
    ensures x == |members| - 1 - i && BackwardsMembers(members)[x].key == members[i].key
  {
    x := |members| - 1 - i;
    BackwardsAt(members, x);
  }

  lemma CanonIsStable(members: seq<Member>, i: nat, j: nat, collation: Collation)
    requires DistinctKeys(members) && i < j < |members| && collation(members[i].key) == collation(members[j].key)
    ensures var canon := Canon(Obj(members), collation).members;
            DistinctKeys(canon) && Precedes(canon, members[i].key, members[j].key)
  {
    SortIsStable(CanonMembers(members, collation), i, j, collation);
    SortKeepsDistinct(CanonMembers(members, collation), collation);
  }

  /** A member whose value differs makes its object differ. */
  lemma MemberDiffers(members: seq<Member>, i: nat, collation: Collation)
    requires DistinctKeys(members) && i < |members|
    requires Canon(members[i].value, collation) != Canon(Backwards(members[i].value), collation)
    ensures Canon(Obj(members), collation) != Canon(Obj(BackwardsMembers(members)), collation)
  {
    var m := members[i];
    BackwardsKeepsDistinct(members);
    BackwardsKeepsMembers(members);
    assert m in members && BackwardsMember(m) in BackwardsMembers(members);
    assert CanonMember(BackwardsMember(m), collation) != CanonMember(m, collation);
    if Canon(Obj(members), collation) == Canon(Obj(BackwardsMembers(members)), collation) {
      MatchedByKey(members, BackwardsMembers(members), collation);
    }
  }

  lemma ItemDiffers(items: seq<Json>, i: nat, collation: Collation)
    requires i < |items| && Canon(items[i], collation) != Canon(Backwards(items[i]), collation)
    ensures Canon(Arr(items), collation) != Canon(Arr(BackwardsItems(items)), collation)
  {
    assert CanonItems(items, collation)[i] != CanonItems(BackwardsItems(items), collation)[i];
  }

  /** A request in which two keys tie anywhere has another canonical form when its objects are written backwards. */
  lemma {:induction false} TiedDiffersBackwards(j: Json, collation: Collation)
    requires Valid(j) && !Untied(j, collation)
    ensures Canon(j, collation) != Canon(Backwards(j), collation)
    decreases j
  {
    match j {
      case Arr(items) =>
        var i :| 0 <= i < |items| && !Untied(items[i], collation);
        TiedDiffersBackwards(items[i], collation);
        ItemDiffers(items, i, collation);
      case Obj(members) =>
        if RanksDistinct(members, collation) {
          var i :| 0 <= i < |members| && !Untied(members[i].value, collation);
          TiedDiffersBackwards(members[i].value, collation);
          MemberDiffers(members, i, collation);
        } else {
          TiedObjectsDiffer(members, collation);
        }
        assert Backwards(j) == Obj(BackwardsMembers(members));
    }
  }

  // ---------------------------------------------------------------- main results

  /** Equal hashed text means equal up to key order, whatever the collation. */
  lemma SerializedDistinguishes(a: Json, b: Json, collation: Collation)
    requires Valid(a) && Valid(b) && Serialized(a, collation) == Serialized(b, collation)
    ensures SameUpToKeyOrder(a, b)
  {
    CanonValid(a, collation);
    CanonValid(b, collation);
    TextIsInjective(Canon(a, collation), Canon(b, collation));
    SameCanonMeansSame(a, b, collation);
  }

  /** A request without tied keys has the hashed text of exactly the requests equal to it up to key order. */
  lemma SerializedIffSameUpToKeyOrder(a: Json, b: Json, collation: Collation)
    requires Valid(a) && Valid(b) && Untied(a, collation)
    ensures Serialized(a, collation) == Serialized(b, collation) <==> SameUpToKeyOrder(a, b)
  {
    if Serialized(a, collation) == Serialized(b, collation) {
      SerializedDistinguishes(a, b, collation);
    }
    if SameUpToKeyOrder(a, b) {
      SameMeansSameCanon(a, b, collation);
    }
  }

  lemma CanonicalTextsDiffer(a: Json, b: Json, collation: Collation)
    requires Valid(a) && Valid(b) && Canon(a, collation) != Canon(b, collation)
    ensures Serialized(a, collation) != Serialized(b, collation)
  {
    CanonValid(a, collation);
    CanonValid(b, collation);
    if Serialized(a, collation) == Serialized(b, collation) {
      TextIsInjective(Canon(a, collation), Canon(b, collation));
    }
  }

  /** Tied keys matter: the request written backwards is equal up to key order and hashes another text. */
  lemma TiedKeysMatter(a: Json, collation: Collation) returns (b: Json)
    requires Valid(a) && !Untied(a, collation)
    ensures Valid(b) && SameUpToKeyOrder(a, b) && Serialized(a, collation) != Serialized(b, collation)
  {
    b := Backwards(a);
    BackwardsValid(a);
    BackwardsIsTheSame(a);
    TiedDiffersBackwards(a, collation);
    CanonicalTextsDiffer(a, b, collation);
  }

  /** Key order is immaterial for a request. */
  ghost predicate OrderImmaterial(a: Json, collation: Collation) {
    forall b | Valid(b) && SameUpToKeyOrder(a, b) :: Serialized(a, collation) == Serialized(b, collation)
  }

  /** Key order is immaterial for a request exactly when no two keys of one of its objects tie. */
  lemma OrderImmaterialIffUntied(a: Json, collation: Collation)
    requires Valid(a)
    ensures OrderImmaterial(a, collation) <==> Untied(a, collation)
  {
    if Untied(a, collation) {
      forall b | Valid(b) && SameUpToKeyOrder(a, b) ensures Serialized(a, collation) == Serialized(b, collation) {
        SerializedIffSameUpToKeyOrder(a, b, collation);
      }
    } else {
      var b := TiedKeysMatter(a, collation);
    }
  }

  /** Over all requests: exactly when the collation tells all keys apart. */
  lemma OrderImmaterialIffTotal(collation: Collation)
    ensures (forall a | Valid(a) :: OrderImmaterial(a, collation))
       <==> (forall k, l | collation(k) == collation(l) :: k == l)
  {
    if k, l :| collation(k) == collation(l) && k != l {
      var a := Obj([Member(k, Null), Member(l, Null)]);
      assert a.members[0].key == k && a.members[1].key == l;
      OrderImmaterialIffUntied(a, collation);
    } else {
      forall a | Valid(a) ensures OrderImmaterial(a, collation) {
        TotalMeansUntied(a, collation);
        OrderImmaterialIffUntied(a, collation);
      }
    }
  }

  lemma {:induction false} TotalMeansUntied(j: Json, collation: Collation)
    requires Valid(j) && forall k, l | collation(k) == collation(l) :: k == l
    ensures Untied(j, collation)
    decreases j
  {
    match j {
      case Arr(items) =>
        forall i | 0 <= i < |items| ensures Untied(items[i], collation) {
          TotalMeansUntied(items[i], collation);
        }
      case Obj(members) =>
        forall i | 0 <= i < |members| ensures Untied(members[i].value, collation) {
          TotalMeansUntied(members[i].value, collation);
        }
      case _ =>
    }
  }
}
