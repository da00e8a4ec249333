/** The text by which the Loki adapter groups entries: sorted, quoted labels. */
module StreamKeys {
  import opened Text
  import opened Quoting

  type Labels = map<string, string>

  // Sorting

  /** The order of strings, character by character. */
  predicate Less(a: string, b: string) {
    if b == "" then false
    else if a == "" then true
    else a[0] < b[0] || (a[0] == b[0] && Less(a[1..], b[1..]))
  }

  lemma {:induction false} LessIsTotal(a: string, b: string)
    ensures a == b || Less(a, b) || Less(b, a)
    ensures !(Less(a, b) && Less(b, a)) && !Less(a, a)
  {
    if a != "" && b != "" {
      LessIsTotal(a[1..], b[1..]);
      assert a == [a[0]] + a[1..] && b == [b[0]] + b[1..];
    }
    if a != "" {
      LessIsTotal(a[1..], a[1..]);
    }
  }

  lemma {:induction false} LessIsTransitive(a: string, b: string, c: string)
    requires Less(a, b) && Less(b, c)
    ensures Less(a, c)
  {
    if a != "" && a[0] == b[0] == c[0] {
      LessIsTransitive(a[1..], b[1..], c[1..]);
    }
  }

  ghost predicate Sorted(items: seq<string>) {
    forall i, j :: 0 <= i < j < |items| ==> Less(items[i], items[j])
  }

  ghost predicate SameElements(a: seq<string>, b: seq<string>) { forall x :: x in a <==> x in b }

  method InsertString(sorted: seq<string>, x: string) returns (r: seq<string>)
    requires Sorted(sorted) && x !in sorted
    ensures Sorted(r) && SameElements(r, sorted + [x])
  {
    var n := 0;
    while n < |sorted| && Less(sorted[n], x)
      invariant n <= |sorted| && forall i :: 0 <= i < n ==> Less(sorted[i], x)
    {
      n := n + 1;
    }
    r := sorted[..n] + [x] + sorted[n..];
    assert sorted == sorted[..n] + sorted[n..];
    forall i | n <= i < |sorted| ensures Less(x, sorted[i]) {
      LessIsTotal(sorted[n], x);
      if i > n {
        LessIsTransitive(x, sorted[n], sorted[i]);
      }
    }
    InsertedInOrder(sorted, x, n);
  }

  lemma InsertedInOrder(sorted: seq<string>, x: string, n: nat)
    requires Sorted(sorted) && n <= |sorted|
    requires (forall i :: 0 <= i < n ==> Less(sorted[i], x)) && forall i :: n <= i < |sorted| ==> Less(x, sorted[i])
    ensures Sorted(sorted[..n] + [x] + sorted[n..])
  {
  }

  /** `sort.Strings`, on strings without repetition. */
  method SortStrings(items: seq<string>) returns (sorted: seq<string>)
    requires forall i, j :: 0 <= i < j < |items| ==> items[i] != items[j]
    ensures Sorted(sorted) && SameElements(sorted, items)
  {
    sorted := [];
    for n := 0 to |items|
      invariant Sorted(sorted) && SameElements(sorted, items[..n])
    {
      assert items[..n + 1] == items[..n] + [items[n]];
      sorted := InsertString(sorted, items[n]);
    }
    assert items[..|items|] == items;
  }

  /** There is one sorted sequence of given elements. */
  lemma {:induction false} SortedIsUnique(a: seq<string>, b: seq<string>)
    requires Sorted(a) && Sorted(b) && SameElements(a, b)
    ensures a == b
  {
    assert (a != [] ==> a[0] in a) && (b != [] ==> b[0] in b);
    if a == [] {
    } else {
      FirstIsLeast(a, b);
      forall x ensures x in a[1..] <==> x in b[1..] {
        TailElements(a, x);
        TailElements(b, x);
      }
      SortedIsUnique(a[1..], b[1..]);
      assert a == [a[0]] + a[1..] && b == [b[0]] + b[1..];
    }
  }

  lemma FirstIsLeast(a: seq<string>, b: seq<string>)
    requires Sorted(a) && Sorted(b) && a != [] && b != [] && a[0] in b && b[0] in a
    ensures a[0] == b[0]
  {
    LessIsTotal(a[0], b[0]);
  }

  lemma TailElements(a: seq<string>, x: string)
    requires Sorted(a) && a != []
    ensures x in a[1..] <==> x in a && x != a[0]
  {
    LessIsTotal(a[0], a[0]);
    if x in a && x != a[0] {
      var i :| 0 <= i < |a| && a[i] == x;
      assert a[1..][i - 1] == x;
    }
  }

  // Items

  function Item(printable: char -> bool, key: string, value: string): (s: string)
    ensures s != ""
  {
    key + "=" + Quote(printable, value)
  }

  lemma ItemParts(printable: char -> bool, k: string, v: string, x: string)
    ensures var s, body := Item(printable, k, v) + x, QuoteBody(printable, v);
      && |s| == |k| + 3 + |body| + |x|
      && s[..|k|] == k && s[|k|] == '=' && s[|k| + 1] == '"'
      && s[|k| + 2..] == Tail(printable, v, x)
      && (forall i :: 0 <= i < |body| ==> s[|k| + 2 + i] == body[i])
  {
    var body := QuoteBody(printable, v);
    hide QuoteBody;
    assert Item(printable, k, v) + x == k + "=\"" + (body + ("\"" + x));
  }

  lemma ItemKeyIsNoLonger(printable: char -> bool, k: string, v: string, l: string, w: string)
    requires Item(printable, k, v) == Item(printable, l, w)
    ensures |k| >= |l|
  {
    hide Item, QuoteBody;
    var s, n := Item(printable, k, v), |l|;
    assert s + "" == s;
    ItemParts(printable, k, v, "");
    ItemParts(printable, l, w, "");
    if |k| < n {
      var i := n - |k| - 1;
      InnerQuotesAreEscaped(printable, v, i);
    }
  }

  /** An item determines its label. */
  lemma ItemInjective(printable: char -> bool, k: string, v: string, l: string, w: string)
    requires Item(printable, k, v) == Item(printable, l, w)
    ensures k == l && v == w
  {
    hide Item, QuoteBody, Tail;
    ItemKeyIsNoLonger(printable, k, v, l, w);
    ItemKeyIsNoLonger(printable, l, w, k, v);
    ItemParts(printable, k, v, "");
    ItemParts(printable, l, w, "");
    QuoteIsReadBack(printable, v, w, "", "");
  }

  /** The names a reader can tell from values: without an equals sign before a quote, or without a comma. */
  datatype Naming = NoEqualsQuote | NoComma

  predicate IsFreeKey(key: string) {
    forall i :: 0 <= i < |key| - 1 ==> !(key[i] == '=' && key[i + 1] == '"')
  }

  predicate Follows(naming: Naming, key: string) {
    match naming
    case NoEqualsQuote => IsFreeKey(key)
    case NoComma => ',' !in key
  }

  // Names without a comma

  /** What is behind an item: nothing, or a comma and more. */
  predicate IsRest(x: string) { x == "" || x[0] == ',' }

  /** Where a value closes: behind all of its body, at a quote. */
  lemma TailParts(printable: char -> bool, v: string, x: string)
    ensures var t, n := Tail(printable, v, x), |QuoteBody(printable, v)|;
      && |t| == n + 1 + |x| && t[n] == '"' && t[n + 1..] == x
      && (forall i :: 0 < i < n && t[i] == '"' ==> t[i - 1] == '\\')
      && (n > 0 ==> t[0] != '"')
  {
    var body := QuoteBody(printable, v);
    forall i | 0 <= i < |body| && body[i] == '"' ensures i > 0 && body[i - 1] == '\\' {
      InnerQuotesAreEscaped(printable, v, i);
    }
    hide QuoteBody;
    ClosedParts(body, x);
  }

  lemma ClosedParts(body: string, x: string)
    ensures var t := body + ("\"" + x);
      && |t| == |body| + 1 + |x| && t[|body|] == '"' && t[|body| + 1..] == x
      && forall i :: 0 <= i < |body| ==> t[i] == body[i]
  {
  }

  /** A value that starts where part of a name is left closes exactly at the quote that opens the name's own value. */
  lemma ClosesAtOpening(printable: char -> bool, v: string, x: string, left: string, w: string, y: string)
    requires IsRest(x) && forall i :: 1 <= i < |left| ==> left[i] != ','
    requires Tail(printable, v, x) == left + ("=\"" + Tail(printable, w, y))
    ensures x == Tail(printable, w, y)
  {
    hide Tail, QuoteBody;
    TailParts(printable, v, x);
    TailParts(printable, w, y);
    var t, n, q := Tail(printable, v, x), |QuoteBody(printable, v)|, |left| + 1;
    assert t[|left|] == '=' && t[q] == '"' && t[q + 1..] == Tail(printable, w, y);
    assert forall i :: 0 <= i < |left| ==> t[i] == left[i];
    assert n + 1 < |t| ==> x[0] == t[n + 1];
  }

  /** The items behind the first ones of a list. */
  function After(items: seq<string>): string { if items == [] then "" else "," + Join(items, ",") }

  ghost predicate AreItems(printable: char -> bool, naming: Naming, items: seq<string>) {
    forall i :: 0 <= i < |items| ==> IsItem(printable, naming, items[i])
  }

  ghost predicate IsItem(printable: char -> bool, naming: Naming, x: string) {
    exists k, v :: Follows(naming, k) && x == Item(printable, k, v)
  }

  /** The first item of a list, by its label, and what is behind it. */
  lemma FirstItem(printable: char -> bool, naming: Naming, items: seq<string>) returns (k: string, v: string)
    requires items != [] && AreItems(printable, naming, items)
    ensures Follows(naming, k) && items[0] == Item(printable, k, v)
    ensures Join(items, ",") == k + ("=\"" + Tail(printable, v, After(items[1..])))
    ensures AreItems(printable, naming, items[1..]) && IsRest(After(items[1..]))
  {
    assert IsItem(printable, naming, items[0]);
    k, v :| Follows(naming, k) && items[0] == Item(printable, k, v);
    JoinIsFirstAndAfter(items);
    ItemThenRest(printable, k, v, After(items[1..]));
    RestAfter(items[1..]);
    hide Item, Tail, Join, After;
  }

  lemma JoinIsFirstAndAfter(items: seq<string>)
    requires items != []
    ensures Join(items, ",") == items[0] + After(items[1..])
  {
  }

  lemma ItemThenRest(printable: char -> bool, k: string, v: string, x: string)
    ensures Item(printable, k, v) + x == k + ("=\"" + Tail(printable, v, x))
  {
    hide QuoteBody;
  }

  lemma RestAfter(items: seq<string>)
    ensures IsRest(After(items))
  {
  }

  /**
   * No text reads as the items of a list behind a comma, and at the same time as the rest of a value with items
   * behind it: one reading would have to be inside a value exactly where the other is outside, up to the end.
   */
  lemma {:induction false} NoTwoReadings(printable: char -> bool, a: seq<string>, v: string, b: seq<string>)
    requires AreItems(printable, NoComma, a) && AreItems(printable, NoComma, b)
    ensures After(a) != Tail(printable, v, After(b))
    decreases |a| + |b|
  {
    TailStep(printable, v, After(b));
    if a != [] && After(a) == Tail(printable, v, After(b)) {
      var k, w := FirstItem(printable, NoComma, a);
      var x := After(a[1..]);
      hide Tail, Join;
      assert After(a) == ("," + k) + ("=\"" + Tail(printable, w, x));
      assert IsRest(After(b)) by { RestAfter(b); }
      ClosesAtOpening(printable, v, After(b), "," + k, w, x);
      NoTwoReadings(printable, b, w, a[1..]);
    }
  }

  /** Without commas in names, the shorter of two first names would give the text two readings. */
  lemma NameIsNoShorter(printable: char -> bool, a: seq<string>, b: seq<string>, k: string, v: string, l: string,
      w: string)
    requires AreItems(printable, NoComma, a) && AreItems(printable, NoComma, b) && ',' !in l
    requires k + ("=\"" + Tail(printable, v, After(a))) == l + ("=\"" + Tail(printable, w, After(b)))
    ensures |k| >= |l|
  {
    hide Tail, Join;
    var s := k + ("=\"" + Tail(printable, v, After(a)));
    assert s[|k|] == '=' && s[|k| + 1] == '"' && s[|k| + 2..] == Tail(printable, v, After(a));
    assert s[|l|] == '=' && s[..|l|] == l;
    if |k| < |l| {
      var left := l[|k| + 2..];
      assert s[|k| + 2..] == left + ("=\"" + Tail(printable, w, After(b)));
      RestAfter(a);
      ClosesAtOpening(printable, v, After(a), left, w, After(b));
      NoTwoReadings(printable, a, w, b);
    }
  }

  lemma FirstItemsAgree(printable: char -> bool, naming: Naming, a: seq<string>, b: seq<string>)
    requires a != [] && b != [] && AreItems(printable, naming, a) && AreItems(printable, naming, b)
    requires Join(a, ",") == Join(b, ",")
    ensures a[0] == b[0] && After(a[1..]) == After(b[1..])
    ensures AreItems(printable, naming, a[1..]) && AreItems(printable, naming, b[1..])
  {
    var k, v := FirstItem(printable, naming, a);
    var l, w := FirstItem(printable, naming, b);
    var x, y := After(a[1..]), After(b[1..]);
    hide Join, AreItems;
    match naming {
      case NoEqualsQuote => FreeNamesAgree(k, l, Tail(printable, v, x), Tail(printable, w, y));
      case NoComma =>
        NameIsNoShorter(printable, a[1..], b[1..], k, v, l, w);
        NameIsNoShorter(printable, b[1..], a[1..], l, w, k, v);
    }
    SameName(k, l, Tail(printable, v, x), Tail(printable, w, y));
    QuoteIsReadBack(printable, v, w, x, y);
  }

  lemma FreeNamesAgree(k: string, l: string, x: string, y: string)
    requires IsFreeKey(k) && IsFreeKey(l) && k + ("=\"" + x) == l + ("=\"" + y)
    ensures |k| == |l|
  {
    var s := k + ("=\"" + x);
    assert s[|k|] == '=' && s[|k| + 1] == '"' && s[|l|] == '=' && s[|l| + 1] == '"';
    assert (forall i :: 0 <= i < |k| ==> s[i] == k[i]) && forall i :: 0 <= i < |l| ==> s[i] == l[i];
  }

  lemma SameName(k: string, l: string, x: string, y: string)
    requires |k| == |l| && k + ("=\"" + x) == l + ("=\"" + y)
    ensures k == l && x == y
  {
    var s := k + ("=\"" + x);
    assert k == s[..|k|] && l == s[..|k|] && x == s[|k| + 2..] && y == s[|k| + 2..];
  }

  lemma JoinOfItems(printable: char -> bool, naming: Naming, items: seq<string>)
    requires AreItems(printable, naming, items)
    ensures Join(items, ",") == "" <==> items == []
  {
    hide Item;
    assert items != [] ==> IsItem(printable, naming, items[0]);
  }

  /** A list of items can be read back from its joined text. */
  lemma {:induction false} JoinIsReadBack(printable: char -> bool, naming: Naming, a: seq<string>, b: seq<string>)
    requires AreItems(printable, naming, a) && AreItems(printable, naming, b)
    requires Join(a, ",") == Join(b, ",")
    ensures a == b
  {
    JoinOfItems(printable, naming, a);
    JoinOfItems(printable, naming, b);
    if a != [] && b != [] {
      FirstItemsAgree(printable, naming, a, b);
      hide Join, AreItems;
      if a[1..] != [] && b[1..] != [] {
        assert After(a[1..])[1..] == Join(a[1..], ",") && After(b[1..])[1..] == Join(b[1..], ",");
        JoinIsReadBack(printable, naming, a[1..], b[1..]);
      }
      assert a == [a[0]] + a[1..] && b == [b[0]] + b[1..];
    }
  }

  // Keys of label maps

  ghost predicate AreItemsOf(printable: char -> bool, labels: Labels, items: seq<string>) {
    forall x :: x in items <==> exists k :: k in labels && x == Item(printable, k, labels[k])
  }

  /** The sorted items of the labels, joined. */
  ghost predicate IsStreamKey(printable: char -> bool, labels: Labels, key: string) {
    exists items :: Sorted(items) && AreItemsOf(printable, labels, items) && key == Join(items, ",")
  }

  /** The items of all labels, in the order of iteration. */
  method CollectItems(printable: char -> bool, labels: Labels) returns (keys: seq<string>)
    ensures AreItemsOf(printable, labels, keys)
    ensures forall i, j :: 0 <= i < j < |keys| ==> keys[i] != keys[j]
  {
    keys := [];
    var rest := labels;
    assert labels - labels.Keys == map[] && AreItemsOf(printable, map[], []);
    hide Item, AreItemsOf;
    while rest != map[]
      invariant rest.Keys <= labels.Keys && forall k :: k in rest ==> rest[k] == labels[k]
      invariant AreItemsOf(printable, labels - rest.Keys, keys)
      invariant forall i, j :: 0 <= i < j < |keys| ==> keys[i] != keys[j]
      decreases |rest|
    {
      var k :| k in rest;
      NewItem(printable, labels, rest.Keys, k, keys);
      keys := keys + [Item(printable, k, rest[k])];
      rest := rest - {k};
    }
    assert labels - {} == labels;
  }

  method CreateStreamKey(printable: char -> bool, labels: Labels) returns (key: string)
    ensures IsStreamKey(printable, labels, key)
  {
    var keys := CollectItems(printable, labels);
    var sorted := SortStrings(keys);
    hide Item, Sorted;
    assert AreItemsOf(printable, labels, sorted);
    key := Join(sorted, ",");
  }

  lemma NewItem(printable: char -> bool, labels: Labels, rest: set<string>, k: string, keys: seq<string>)
    requires AreItemsOf(printable, labels - rest, keys) && k in rest && k in labels
    ensures Item(printable, k, labels[k]) !in keys
    ensures AreItemsOf(printable, labels - (rest - {k}), keys + [Item(printable, k, labels[k])])
  {
    var item, done := Item(printable, k, labels[k]), labels - rest;
    if item in keys {
      var l :| l in done && item == Item(printable, l, done[l]);
      ItemInjective(printable, k, labels[k], l, done[l]);
    }
    var more := labels - (rest - {k});
    forall x ensures x in keys + [item] <==> exists l :: l in more && x == Item(printable, l, more[l]) {
      if x in keys {
        var l :| l in done && x == Item(printable, l, done[l]);
        assert l in more && x == Item(printable, l, more[l]);
      }
      assert k in more && more[k] == labels[k];
      if l :| l in more && x == Item(printable, l, more[l]) && l != k {
        assert l in done && x == Item(printable, l, done[l]);
      }
    }
  }

  /** The same labels have one key, whatever the order of iteration. */
  lemma StreamKeyIsUnique(printable: char -> bool, labels: Labels, x: string, y: string)
    requires IsStreamKey(printable, labels, x) && IsStreamKey(printable, labels, y)
    ensures x == y
  {
    var a :| Sorted(a) && AreItemsOf(printable, labels, a) && x == Join(a, ",");
    var b :| Sorted(b) && AreItemsOf(printable, labels, b) && y == Join(b, ",");
    SortedIsUnique(a, b);
  }

  predicate NamesFollow(naming: Naming, labels: Labels) { forall k :: k in labels ==> Follows(naming, k) }

  lemma SameItemsSameLabels(printable: char -> bool, a: Labels, b: Labels, items: seq<string>)
    requires AreItemsOf(printable, a, items) && AreItemsOf(printable, b, items)
    ensures forall k :: k in a ==> k in b && b[k] == a[k]
  {
    forall k | k in a ensures k in b && b[k] == a[k] {
      assert Item(printable, k, a[k]) in items;
      var l :| l in b && Item(printable, k, a[k]) == Item(printable, l, b[l]);
      ItemInjective(printable, k, a[k], l, b[l]);
    }
  }

  lemma ItemsFollow(printable: char -> bool, naming: Naming, labels: Labels, items: seq<string>)
    requires NamesFollow(naming, labels) && AreItemsOf(printable, labels, items)
    ensures AreItems(printable, naming, items)
  {
    forall i | 0 <= i < |items| ensures IsItem(printable, naming, items[i]) {
      assert items[i] in items;
      var k :| k in labels && items[i] == Item(printable, k, labels[k]);
    }
  }

  /** Keys are equal exactly if the labels are, for names without an equals sign before a quote, and for names
    * without a comma. */
  lemma StreamKeyIsInjective(printable: char -> bool, naming: Naming, a: Labels, b: Labels, x: string, y: string)
    requires NamesFollow(naming, a) && NamesFollow(naming, b)
    requires IsStreamKey(printable, a, x) && IsStreamKey(printable, b, y)
    ensures x == y <==> a == b
  {
    hide Follows, AreItems, AreItemsOf, Sorted, Join;
    if x == y {
      var p :| Sorted(p) && AreItemsOf(printable, a, p) && x == Join(p, ",");
      var q :| Sorted(q) && AreItemsOf(printable, b, q) && y == Join(q, ",");
      ItemsFollow(printable, naming, a, p);
      ItemsFollow(printable, naming, b, q);
      JoinIsReadBack(printable, naming, p, q);
      SameItemsSameLabels(printable, a, b, p);
      SameItemsSameLabels(printable, b, a, p);
      assert a.Keys == b.Keys;
    } else if a == b {
      StreamKeyIsUnique(printable, a, x, y);
    }
  }

  // Names over an alphabet

  predicate NamesOver(alphabet: set<char>, labels: Labels) {
    forall k :: k in labels ==> forall i :: 0 <= i < |k| ==> k[i] in alphabet
  }

  const READ_AS_SYNTAX := {'=', '"', ','}

  lemma AlphabetFollows(alphabet: set<char>) returns (naming: Naming)
    requires !(READ_AS_SYNTAX <= alphabet)
    ensures forall labels: Labels :: NamesOver(alphabet, labels) ==> NamesFollow(naming, labels)
  {
    naming := if ',' in alphabet then NoEqualsQuote else NoComma;
  }

  /** The name that holds a whole label and the beginning of the next one. */
  function Swallowing(printable: char -> bool, u: string): string { "," + "=" + Quote(printable, u) + "," + "=" }

  /** Two labels, and one label whose name swallows the first of them. */
  function TwoLabels(u: string, v: string): Labels { map["," := u, "=" := v] }

  function OneLabel(printable: char -> bool, u: string, v: string): Labels { map[Swallowing(printable, u) := v] }

  /** For any two values: the two labels and the one label have the same key. */
  lemma KeysCanCollide(printable: char -> bool, u: string, v: string)
    ensures TwoLabels(u, v) != OneLabel(printable, u, v)
    ensures exists key ::
      IsStreamKey(printable, TwoLabels(u, v), key) && IsStreamKey(printable, OneLabel(printable, u, v), key)
  {
    hide Quote;
    var name := Swallowing(printable, u);
    var a, b := TwoLabels(u, v), OneLabel(printable, u, v);
    var p, q := [Item(printable, ",", u), Item(printable, "=", v)], [Item(printable, name, v)];
    assert "," in a && "," != name;
    assert "=" in a && name in b;
    assert AreItemsOf(printable, a, p) && AreItemsOf(printable, b, q);
    assert p[0][0] == ',' && p[1][0] == '=';
    assert Sorted(p) && Sorted(q);
    assert p[1..] == [p[1]];
    Regrouped(Quote(printable, u), Quote(printable, v));
    assert Join(p, ",") == p[0] + "," + p[1];
    assert p[0] + "," + p[1] == q[0];
    assert Join(q, ",") == q[0];
    assert IsStreamKey(printable, a, q[0]) && IsStreamKey(printable, b, q[0]);
  }

  lemma Regrouped(u: string, v: string)
    ensures ("," + "=" + u) + "," + ("=" + "=" + v) == ("," + "=" + u + "," + "=") + "=" + v
  {
    var s, t := "," + "=" + u, "=" + v;
    assert s + "," + ("=" + t) == (s + "," + "=") + t;
    assert "=" + "=" + v == "=" + t;
    assert (s + "," + "=") + t == (s + "," + "=") + "=" + v;
  }

  ghost predicate SameKeySameLabels(printable: char -> bool, a: Labels, b: Labels, x: string, y: string) {
    IsStreamKey(printable, a, x) && IsStreamKey(printable, b, y) ==> (x == y <==> a == b)
  }

  /** On all label sets with names over an alphabet, keys tell labels apart iff it lacks the equals sign, the
    * quote or the comma. */
  lemma InjectiveOverIff(printable: char -> bool, alphabet: set<char>)
    ensures !(READ_AS_SYNTAX <= alphabet) <==>
      forall a: Labels, b: Labels, x, y ::
        NamesOver(alphabet, a) && NamesOver(alphabet, b) ==> SameKeySameLabels(printable, a, b, x, y)
  {
    if READ_AS_SYNTAX <= alphabet {
      KeysCanCollide(printable, "", "");
      var a, b := TwoLabels("", ""), OneLabel(printable, "", "");
      assert NamesOver(alphabet, a) && NamesOver(alphabet, b) by {
        assert QuoteBody(printable, "") == "";
        assert Swallowing(printable, "") == ",=\"\",=";
      }
      var key :| IsStreamKey(printable, a, key) && IsStreamKey(printable, b, key);
      assert !SameKeySameLabels(printable, a, b, key, key);
    } else {
      var naming := AlphabetFollows(alphabet);
      forall a: Labels, b: Labels, x, y | NamesOver(alphabet, a) && NamesOver(alphabet, b)
        ensures SameKeySameLabels(printable, a, b, x, y)
      {
        if IsStreamKey(printable, a, x) && IsStreamKey(printable, b, y) {
          StreamKeyIsInjective(printable, naming, a, b, x, y);
        }
      }
    }
  }
}
