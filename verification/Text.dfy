/** Strings in order: what sorted cids, member names and field names are listed by. */
module Text {

  /** `a` comes strictly before `b`, character by character. */
  predicate Before(a: string, b: string) {
    if b == "" then false
    else if a == "" then true
    else if a[0] != b[0] then a[0] < b[0]
    else Before(a[1..], b[1..])
  }

  lemma {:induction false} BeforeIsTotal(a: string, b: string)
    ensures a != b ==> (Before(a, b) <==> !Before(b, a))
    ensures !Before(a, a)
  {
    if a != "" && b != "" {
      BeforeIsTotal(a[1..], b[1..]);
      BeforeIsTotal(a[1..], a[1..]);
      assert a == [a[0]] + a[1..] && b == [b[0]] + b[1..];
    } else if a != "" {
      BeforeIsTotal(a[1..], a[1..]);
    }
  }

  lemma {:induction false} NotBeforeTransitive(a: string, b: string, c: string)
    requires !Before(b, a) && !Before(c, b)
    ensures !Before(c, a)
  {
    if a != "" && b != "" && c != "" && a[0] == b[0] == c[0] { NotBeforeTransitive(a[1..], b[1..], c[1..]); }
  }

  function Digit(n: nat): char
    requires n < 10
  {
    "0123456789"[n]
  }

  function Decimal(n: nat): string { if n < 10 then [Digit(n)] else Decimal(n / 10) + [Digit(n % 10)] }

  /** A member name that is an array index: enumerated before the other names, in numeric order. */
  predicate IsIndex(s: string) {
    s == "0" || (0 < |s| <= 10 && s[0] != '0' && (forall c | c in s :: '0' <= c <= '9') && ValueOf(s) < 0xFFFF_FFFF)
  }

  function ValueOf(s: string): int {
    if s == "" then 0 else 10 * ValueOf(s[..|s| - 1]) + (s[|s| - 1] as int - '0' as int)
  }

  /** How names are listed: sorted, or as an object enumerates its sorted members. */
  datatype Listing = Sorted | IndicesFirst

  predicate UpTo(l: Listing, a: string, b: string) {
    if l.IndicesFirst? && IsIndex(a) && IsIndex(b) then |a| < |b| || (|a| == |b| && !Before(b, a))
    else if l.IndicesFirst? && (IsIndex(a) || IsIndex(b)) then IsIndex(a)
    else !Before(b, a)
  }

  lemma UpToIsTotal(l: Listing, a: string, b: string)
    ensures UpTo(l, a, b) || UpTo(l, b, a)
    ensures UpTo(l, a, b) && UpTo(l, b, a) ==> a == b
  {
    BeforeIsTotal(a, b);
  }

  lemma UpToIsTransitive(l: Listing, a: string, b: string, c: string)
    requires UpTo(l, a, b) && UpTo(l, b, c)
    ensures UpTo(l, a, c)
  {
    if !Before(b, a) && !Before(c, b) { NotBeforeTransitive(a, b, c); }
  }

  lemma {:induction false} FirstExists(l: Listing, names: set<string>)
    requires names != {}
    ensures exists first | first in names :: forall name | name in names :: UpTo(l, first, name)
  {
    var x :| x in names;
    UpToIsTotal(l, x, x);
    if names == {x} {
      assert forall name | name in names :: UpTo(l, x, name);
    } else {
      FirstExists(l, names - {x});
      var y :| y in names - {x} && forall name | name in names - {x} :: UpTo(l, y, name);
      UpToIsTotal(l, x, y);
      var first := if UpTo(l, x, y) then x else y;
      forall name | name in names ensures UpTo(l, first, name) {
        if name != x && first == x { UpToIsTransitive(l, x, y, name); }
      }
    }
  }

  /** The names, first to last. */
  ghost function Listed(names: set<string>, l: Listing): seq<string> {
    if names == {} then []
    else
      FirstExists(l, names);
      var first :| first in names && forall name | name in names :: UpTo(l, first, name);
      [first] + Listed(names - {first}, l)
  }

  lemma {:induction false} ListedOnce(names: set<string>, l: Listing)
    ensures forall x :: x in Listed(names, l) <==> x in names
    ensures forall i, k | 0 <= i < k < |Listed(names, l)| :: Listed(names, l)[i] != Listed(names, l)[k]
  {
    if names != {} { ListedOnce(names - {Listed(names, l)[0]}, l); }
  }

  /** The list is in order, so no other list of the names is. */
  lemma {:induction false} ListedInOrder(names: set<string>, l: Listing)
    ensures forall i, k | 0 <= i < k < |Listed(names, l)| :: UpTo(l, Listed(names, l)[i], Listed(names, l)[k])
  {
    if names != {} {
      var rest := names - {Listed(names, l)[0]};
      ListedInOrder(rest, l);
      ListedOnce(rest, l);
      assert Listed(names, l)[1..] == Listed(rest, l);
      forall i, k | 0 <= i < k < |Listed(names, l)| ensures UpTo(l, Listed(names, l)[i], Listed(names, l)[k]) {
        assert Listed(names, l)[k] == Listed(rest, l)[k - 1] && Listed(rest, l)[k - 1] in Listed(rest, l);
        if i > 0 { assert Listed(names, l)[i] == Listed(rest, l)[i - 1]; }
      }
    }
  }
}
