/** Listing by pages: each page resumes after the last name of the one before. */
module Pagination {
  import opened Wrappers
  import opened Order
  import opened Keys
  import opened Model
  import opened Snapshots
  import opened Scan

  const USIZE_MAX: nat := U64_LIMIT - 1

  /** `usize::try_from(max_results.max(0)).unwrap_or(usize::MAX)`. */
  function Limit(maxResults: I64): nat {
    if maxResults <= 0 then 0 else if maxResults <= USIZE_MAX then maxResults else USIZE_MAX
  }

  function OverFetch(maxResults: I64): (n: nat)
    ensures n > Limit(maxResults) && n <= USIZE_MAX
  {
    if Limit(maxResults) == USIZE_MAX then USIZE_MAX else Limit(maxResults) + 1
  }

  /** The rows to return and the token of the next page: the key of the last row returned, if
      more rows came than were asked for. */
  function PageOf<T>(rows: seq<T>, maxResults: I64, key: T -> string): (seq<T>, Option<string>) {
    var limit := Limit(maxResults);
    if limit == 0 then ([], None)
    else (Take(rows, limit), if |rows| > limit then Some(key(rows[limit - 1])) else None)
  }

  method Page<T>(rows: seq<T>, maxResults: I64, key: T -> string) returns (kept: seq<T>, next: Option<string>)
    ensures kept <= rows && |kept| <= Limit(maxResults) && (|kept| < Limit(maxResults) ==> kept == rows)
    ensures next.Some? <==> maxResults > 0 && |rows| > |kept|
    ensures next.Some? ==> next.value == key(kept[|kept| - 1])
    ensures (kept, next) == PageOf(rows, maxResults, key)
  {
    var limit := Limit(maxResults);
    if limit == 0 { return [], None; }
    kept := rows;
    var more := |kept| > limit;
    if more { kept := kept[..limit]; }
    next := if more then Some(key(kept[|kept| - 1])) else None;
  }

  /** Fetching one row more than asked for tells as much as fetching them all: the page is the
      first rows of the whole listing, with a token exactly when the listing goes on. */
  lemma OneMoreTellsAll<T>(all: seq<T>, maxResults: I64, key: T -> string)
    ensures var (kept, next) := PageOf(Take(all, OverFetch(maxResults)), maxResults, key);
            && kept == Take(all, if maxResults > 0 then maxResults else 0)
            && (next.Some? <==> 0 < maxResults < |all|)
            && (next.Some? ==> next.value == key(all[maxResults - 1]))
  {
    if 0 < maxResults < |all| {
      assert Take(all, OverFetch(maxResults))[..maxResults] == all[..maxResults];
    }
  }

  // ----- the listings -----

  /** The column the listings page by. */
  function NameOf(row: Row): string {
    match row
    case CatalogRow(_, name, _) => name
    case SchemaRow(_, _, name, _) => name
    case TableRow(_, _, name, _) => name
    case _ => ""
  }

  /** Catalogs are listed whole, schemas under a catalog, tables under a schema. */
  predicate Listable(kind: EntityKind, prefix: string) {
    if kind == Catalog then prefix == ""
    else (kind == Schema || kind == Table) && |prefix| == 37 && prefix[36] == NUL
  }

  function ListPage(s: State, kind: EntityKind, prefix: string, token: Option<string>, maxResults: I64): (seq<Row>, Option<string>) {
    PageOf(ScanPrefix(s, kind, prefix, token, OverFetch(maxResults)), maxResults, NameOf)
  }

  function NameUnder(prefix: string, k: Tag): string {
    if prefix <= k.text then k.text[|prefix|..] else ""
  }

  lemma NameIsSuffix(row: Row, kind: EntityKind, prefix: string, k: Tag)
    requires Listable(kind, prefix) && row.Kind() == kind && KeyOf(row) == Some(k) && prefix <= k.text
    ensures NameOf(row) == NameUnder(prefix, k)
  {
    if kind != Catalog {
      var parent := if kind == Schema then row.catalogId else row.schemaId;
      assert k.text == parent + [NUL] + NameOf(row);
      assert k.text[37..] == NameOf(row);
    }
  }

  lemma {:induction false} RowsOfPrefix(s: State, keys: seq<Tag>, n: nat)
    requires NoStale(s) && (forall k | k in keys :: k in s.index) && n <= |keys|
    ensures |RowsOf(s, keys)| == |keys| && RowsOf(s, keys)[..n] == RowsOf(s, keys[..n])
  {
    RowsOfKeys(s, keys);
    RowsOfKeys(s, keys[..n]);
  }

  /** The keys still to come after a token. */
  function Rest(s: State, kind: EntityKind, prefix: string, token: Option<string>): seq<Tag> {
    ScanKeys(s, kind, prefix, token)
  }

  lemma RestFacts(s: State, kind: EntityKind, prefix: string, token: Option<string>)
    ensures var rest := Rest(s, kind, prefix, token);
            && Lists(rest, Group(s, kind, prefix, token))
            && (forall k :: k in rest <==> k in s.index && InGroup(k, kind, prefix) && Beyond(token, NameUnder(prefix, k)))
  {
    hide Less, Text, ScanKeys;
    ScanIsFilter(s, kind, prefix, token);
  }

  lemma ListedRow(s: State, kind: EntityKind, prefix: string, k: Tag, row: Row)
    requires NoStale(s) && Typed(s) && Listable(kind, prefix) && k in s.index && InGroup(k, kind, prefix)
    requires Get(s, k.kind, s.index[k]) == Some(row)
    ensures row.Kind() == kind && KeyOf(row) == Some(k) && NameOf(row) == NameUnder(prefix, k)
  {
    assert KeyAt(s, Tag(k.kind, s.index[k])) == Some(k);
    NameIsSuffix(row, kind, prefix, k);
  }

  lemma RestRows(s: State, kind: EntityKind, prefix: string, token: Option<string>)
    requires Sound(s) && Listable(kind, prefix)
    ensures var rest := Rest(s, kind, prefix, token); var all := RowsOf(s, rest);
            |all| == |rest| && forall i | 0 <= i < |rest| :: NameOf(all[i]) == NameUnder(prefix, rest[i])
  {
    hide ScanKeys, InGroup, Less, Text, NameOf, NameUnder, Listable;
    var rest := Rest(s, kind, prefix, token);
    RestFacts(s, kind, prefix, token);
    RowsOfKeys(s, rest);
    var all := RowsOf(s, rest);
    forall i | 0 <= i < |rest| ensures NameOf(all[i]) == NameUnder(prefix, rest[i]) {
      assert rest[i] in rest;
      ListedRow(s, kind, prefix, rest[i], all[i]);
    }
  }

  /** A page holds the rows of the next keys, as many as asked for, and a token exactly when
      keys remain. */
  lemma PageShape(s: State, kind: EntityKind, prefix: string, token: Option<string>, maxResults: I64)
    requires Sound(s) && Listable(kind, prefix) && maxResults > 0
    ensures var rest := Rest(s, kind, prefix, token);
            var (rows, next) := ListPage(s, kind, prefix, token, maxResults);
            var n := if |rest| <= maxResults then |rest| else maxResults;
            && |rows| == n && rows == RowsOf(s, rest[..n])
            && (forall i | 0 <= i < n :: NameOf(rows[i]) == NameUnder(prefix, rest[i]))
            && next == if |rest| > maxResults then Some(NameUnder(prefix, rest[maxResults - 1])) else None
  {
    hide ScanKeys, NameOf, NameUnder, Listable, Sound, RowsOf;
    var rest := Rest(s, kind, prefix, token);
    RestRows(s, kind, prefix, token);
    var all := RowsOf(s, rest);
    var n := if |rest| <= maxResults then |rest| else maxResults;
    RestPrefix(s, kind, prefix, token, n);
    if |rest| > maxResults {
      assert Take(all, OverFetch(maxResults))[..maxResults] == all[..maxResults];
    }
  }

  lemma RestPrefix(s: State, kind: EntityKind, prefix: string, token: Option<string>, n: nat)
    requires Sound(s) && n <= |Rest(s, kind, prefix, token)|
    ensures var rest := Rest(s, kind, prefix, token);
            |RowsOf(s, rest)| == |rest| && RowsOf(s, rest)[..n] == RowsOf(s, rest[..n])
  {
    hide ScanKeys, InGroup, Less, Text;
    RestFacts(s, kind, prefix, token);
    RowsOfPrefix(s, Rest(s, kind, prefix, token), n);
  }

  lemma NamesAscend(s: State, kind: EntityKind, prefix: string, token: Option<string>, i: nat, j: nat)
    requires i < j < |Rest(s, kind, prefix, token)|
    ensures Less(NameUnder(prefix, Rest(s, kind, prefix, token)[i]), NameUnder(prefix, Rest(s, kind, prefix, token)[j]))
  {
    hide ScanKeys, Less;
    RestFacts(s, kind, prefix, token);
    var rest := Rest(s, kind, prefix, token);
    ListsAscend(rest, Group(s, kind, prefix, token), i, j);
    assert rest[i] in rest && rest[j] in rest;
    var p := [Mark(kind)] + prefix;
    assert rest[i].text == prefix + NameUnder(prefix, rest[i]) && rest[j].text == prefix + NameUnder(prefix, rest[j]);
    assert Text(rest[i]) == p + NameUnder(prefix, rest[i]) && Text(rest[j]) == p + NameUnder(prefix, rest[j]);
    LessAfterPrefix(p, NameUnder(prefix, rest[i]), NameUnder(prefix, rest[j]));
  }

  /** Resuming at the name of a listed key leaves exactly the keys listed after it. */
  lemma RestResumes(s: State, kind: EntityKind, prefix: string, token: Option<string>, i: nat)
    requires i < |Rest(s, kind, prefix, token)|
    ensures var rest := Rest(s, kind, prefix, token);
            Rest(s, kind, prefix, Some(NameUnder(prefix, rest[i]))) == rest[i + 1..]
  {
    hide Less, Text, InGroup, Group, Rest;
    var rest := Rest(s, kind, prefix, token);
    var name := NameUnder(prefix, rest[i]);
    RestFacts(s, kind, prefix, token);
    RestFacts(s, kind, prefix, Some(name));
    var later := rest[i + 1..];
    forall k ensures k in later <==> k in Rest(s, kind, prefix, Some(name)) {
      if k in rest {
        var j :| 0 <= j < |rest| && rest[j] == k;
        if j < i { NamesAscend(s, kind, prefix, token, j, i); LessAsymmetric(NameUnder(prefix, rest[j]), name); }
        if j > i { NamesAscend(s, kind, prefix, token, i, j); assert later[j - i - 1] == k; }
        if j == i { LessIrreflexive(name); }
        if k in later {
          var l :| 0 <= l < |later| && later[l] == k;
          NamesAscend(s, kind, prefix, token, i, i + 1 + l);
        }
      } else if k in Rest(s, kind, prefix, Some(name)) {
        assert rest[i] in rest;
        if token.Some? { LessTransitive(token.value, name, NameUnder(prefix, k)); }
      }
    }
    SortedUnique(later, Rest(s, kind, prefix, Some(name)), Text);
  }

  // ----- following tokens over one snapshot -----

  lemma FewerRemain(s: State, kind: EntityKind, prefix: string, token: Option<string>, maxResults: I64)
    requires Sound(s) && Listable(kind, prefix) && maxResults > 0 && ListPage(s, kind, prefix, token, maxResults).1.Some?
    ensures |Rest(s, kind, prefix, ListPage(s, kind, prefix, token, maxResults).1)| < |Rest(s, kind, prefix, token)|
  {
    hide ListPage, Rest, NameUnder, Sound, Listable;
    PageShape(s, kind, prefix, token, maxResults);
    RestResumes(s, kind, prefix, token, maxResults - 1);
  }

  function Pages(s: State, kind: EntityKind, prefix: string, token: Option<string>, maxResults: I64): seq<Row>
    requires Sound(s) && Listable(kind, prefix) && maxResults > 0
    decreases |Rest(s, kind, prefix, token)|
  {
    var (rows, next) := ListPage(s, kind, prefix, token, maxResults);
    if next.None? then rows
    else
      FewerRemain(s, kind, prefix, token, maxResults);
      rows + Pages(s, kind, prefix, next, maxResults)
  }

  lemma {:induction false} RowsOfConcat(s: State, p: seq<Tag>, q: seq<Tag>)
    ensures RowsOf(s, p + q) == RowsOf(s, p) + RowsOf(s, q)
  {
    if p == [] {
      assert p + q == q;
    } else {
      RowsOfConcat(s, p[1..], q);
      assert (p + q)[1..] == p[1..] + q;
    }
  }

  /** Following tokens comes to an end, and the pages put together are the listing. */
  lemma {:induction false} PagesAreTheListing(s: State, kind: EntityKind, prefix: string, token: Option<string>, maxResults: I64)
    requires Sound(s) && Listable(kind, prefix) && maxResults > 0
    ensures Pages(s, kind, prefix, token, maxResults) == RowsOf(s, Rest(s, kind, prefix, token))
    decreases |Rest(s, kind, prefix, token)|
  {
    hide ListPage, Rest, Less, Sound;
    var rest := Rest(s, kind, prefix, token);
    PageShape(s, kind, prefix, token, maxResults);
    if |rest| > maxResults {
      RestResumes(s, kind, prefix, token, maxResults - 1);
      PagesAreTheListing(s, kind, prefix, Some(NameUnder(prefix, rest[maxResults - 1])), maxResults);
      RowsOfConcat(s, rest[..maxResults], rest[maxResults..]);
      assert rest == rest[..maxResults] + rest[maxResults..];
    } else {
      assert rest[..|rest|] == rest;
    }
  }

  predicate Filed(s: State, kind: EntityKind, prefix: string, row: Row) {
    exists r :: r in s.rows && r.kind == kind && s.rows[r] == row && KeyOf(row).Some? && prefix <= KeyOf(row).value.text
  }

  lemma ListingRow(s: State, kind: EntityKind, prefix: string, i: nat)
    requires Sound(s) && Listable(kind, prefix) && i < |Rest(s, kind, prefix, None)|
    ensures var rest := Rest(s, kind, prefix, None); var pages := RowsOf(s, rest);
            && |pages| == |rest| && Filed(s, kind, prefix, pages[i]) && NameOf(pages[i]) == NameUnder(prefix, rest[i])
            && KeyOf(pages[i]) == Some(rest[i]) && rest[i] in s.index
            && Get(s, rest[i].kind, s.index[rest[i]]) == Some(pages[i])
  {
    hide Less, ScanKeys, Text, KeyOf;
    var rest := Rest(s, kind, prefix, None);
    RestFacts(s, kind, prefix, None);
    RowsOfKeys(s, rest);
    var pages := RowsOf(s, rest);
    assert rest[i] in rest;
    ListedRow(s, kind, prefix, rest[i], pages[i]);
    assert s.rows[Tag(kind, s.index[rest[i]])] == pages[i];
  }

  lemma FiledIsListed(s: State, ks: set<EntityKind>, kind: EntityKind, prefix: string, row: Row)
    requires Coherent(s, ks) && kind in ks && Listable(kind, prefix) && Filed(s, kind, prefix, row)
    ensures row in RowsOf(s, Rest(s, kind, prefix, None))
  {
    hide Less, ScanKeys, Text, KeyOf, Coherent, Listable, Sound;
    var r :| r in s.rows && r.kind == kind && s.rows[r] == row && KeyOf(row).Some? && prefix <= KeyOf(row).value.text;
    CoherentFacts(s, ks);
    FiledIsIndexed(s, ks, r);
    RestFacts(s, kind, prefix, None);
    var rest := Rest(s, kind, prefix, None);
    var k := KeyOf(row).value;
    assert k in rest;
    var i :| 0 <= i < |rest| && rest[i] == k;
    ListingRow(s, kind, prefix, i);
    assert Get(s, kind, r.text) == Some(row);
  }

  /** Nothing is left out and nothing added: where the index is coherent, the pages hold the
      live rows filed under the prefix, each once, by ascending name. */
  lemma PagesAreTheRows(s: State, ks: set<EntityKind>, kind: EntityKind, prefix: string, maxResults: I64, row: Row)
    requires Coherent(s, ks) && kind in ks && Listable(kind, prefix) && maxResults > 0
    ensures var pages := Pages(s, kind, prefix, None, maxResults);
            && (row in pages <==> Filed(s, kind, prefix, row))
            && forall i, j | 0 <= i < j < |pages| :: Less(NameOf(pages[i]), NameOf(pages[j]))
  {
    hide Less, Rest, Text, Pages, Coherent, KeyOf, Filed, Listable, NameOf, Sound;
    CoherentFacts(s, ks);
    PagesAreTheListing(s, kind, prefix, None, maxResults);
    var pages := RowsOf(s, Rest(s, kind, prefix, None));
    if Rest(s, kind, prefix, None) != [] { ListingRow(s, kind, prefix, 0); }
    if row in pages {
      var i :| 0 <= i < |pages| && pages[i] == row;
      ListingRow(s, kind, prefix, i);
    }
    if Filed(s, kind, prefix, row) { FiledIsListed(s, ks, kind, prefix, row); }
    forall i, j | 0 <= i < j < |pages| ensures Less(NameOf(pages[i]), NameOf(pages[j])) {
      ListingRow(s, kind, prefix, i);
      ListingRow(s, kind, prefix, j);
      NamesAscend(s, kind, prefix, None, i, j);
    }
  }

  lemma CoherentFacts(s: State, ks: set<EntityKind>)
    requires Coherent(s, ks)
    ensures Sound(s) && NoStale(s)
  {
  }

  lemma FiledIsIndexed(s: State, ks: set<EntityKind>, r: Tag)
    requires Coherent(s, ks) && r in s.rows && r.kind in ks && KeyOf(s.rows[r]).Some?
    ensures var k := KeyOf(s.rows[r]).value; k.kind == r.kind && k in s.index && s.index[k] == r.text && |r.text| == 36
  {
  }

  /** A first page that claims to be the last one is the whole listing, exactly when the limit
      is positive or there is nothing to list. */
  lemma LimitMustBePositive(s: State, kind: EntityKind, prefix: string, maxResults: I64)
    requires Sound(s) && Listable(kind, prefix) && ListPage(s, kind, prefix, None, maxResults).1.None?
    ensures ListPage(s, kind, prefix, None, maxResults).0 == RowsOf(s, Rest(s, kind, prefix, None))
            <==> maxResults > 0 || Rest(s, kind, prefix, None) == []
  {
    hide Less, ScanKeys, Text, InGroup;
    var rest := Rest(s, kind, prefix, None);
    RestFacts(s, kind, prefix, None);
    RowsOfKeys(s, rest);
    if maxResults > 0 {
      PageShape(s, kind, prefix, None, maxResults);
      assert rest[..|rest|] == rest;
    }
  }

  // ----- following tokens while the store changes -----

  function Names(rows: seq<Row>): (names: seq<string>)
    ensures |names| == |rows| && forall i | 0 <= i < |rows| :: names[i] == NameOf(rows[i])
  {
    seq(|rows|, i requires 0 <= i < |rows| => NameOf(rows[i]))
  }

  /** The walk ends with the last of these snapshots, one page taken from each. */
  predicate Completes(ss: seq<State>, kind: EntityKind, prefix: string, token: Option<string>, maxResults: I64) {
    ss != [] &&
    var next := ListPage(ss[0], kind, prefix, token, maxResults).1;
    if next.None? then |ss| == 1 else Completes(ss[1..], kind, prefix, next, maxResults)
  }

  function Walked(ss: seq<State>, kind: EntityKind, prefix: string, token: Option<string>, maxResults: I64): seq<string>
    requires Completes(ss, kind, prefix, token, maxResults)
  {
    var (rows, next) := ListPage(ss[0], kind, prefix, token, maxResults);
    if next.None? then Names(rows) else Names(rows) + Walked(ss[1..], kind, prefix, next, maxResults)
  }

  ghost predicate AllBeyond(token: Option<string>, names: seq<string>) {
    forall n | n in names :: Beyond(token, n)
  }

  /** A page's names ascend, lie beyond its token, and reach up to the next one. */
  lemma PageNames(s: State, kind: EntityKind, prefix: string, token: Option<string>, maxResults: I64)
    requires Sound(s) && Listable(kind, prefix) && maxResults > 0
    ensures var (rows, next) := ListPage(s, kind, prefix, token, maxResults);
            && Ascending(Names(rows), Plain) && AllBeyond(token, Names(rows))
            && (next.Some? ==> Beyond(token, next.value) && forall n | n in Names(rows) :: AtMost(n, next.value))
  {
    hide Less, ScanKeys, Text, InGroup, Sound;
    PageShape(s, kind, prefix, token, maxResults);
    RestFacts(s, kind, prefix, token);
    var rest := Rest(s, kind, prefix, token);
    var (rows, next) := ListPage(s, kind, prefix, token, maxResults);
    var names := Names(rows);
    forall i, j | 0 <= i < j < |names| ensures Less(names[i], names[j]) { NamesAscend(s, kind, prefix, token, i, j); }
    forall i | 0 <= i < |names| ensures Beyond(token, names[i]) && (next.Some? ==> AtMost(names[i], next.value)) {
      assert rest[i] in rest;
      if next.Some? && i < maxResults - 1 { NamesAscend(s, kind, prefix, token, i, maxResults - 1); }
    }
    if next.Some? { assert rest[maxResults - 1] in rest; }
  }

  ghost predicate Present(s: State, kind: EntityKind, prefix: string, name: string) {
    Tag(kind, prefix + name) in s.index
  }

  /** A name in the snapshot is on the page unless it lies beyond the next token. */
  lemma PageCovers(s: State, kind: EntityKind, prefix: string, token: Option<string>, maxResults: I64, name: string)
    requires Sound(s) && Listable(kind, prefix) && maxResults > 0
    requires Present(s, kind, prefix, name) && Beyond(token, name)
    ensures var (rows, next) := ListPage(s, kind, prefix, token, maxResults);
            name in Names(rows) || (next.Some? && Beyond(next, name))
  {
    hide Less, ScanKeys, Text, Sound;
    PageShape(s, kind, prefix, token, maxResults);
    RestFacts(s, kind, prefix, token);
    var rest := Rest(s, kind, prefix, token);
    var k := Tag(kind, prefix + name);
    assert NameUnder(prefix, k) == name;
    assert k in rest;
    var i :| 0 <= i < |rest| && rest[i] == k;
    var rows := ListPage(s, kind, prefix, token, maxResults).0;
    if i < |rows| {
      assert Names(rows)[i] == name;
    } else {
      NamesAscend(s, kind, prefix, token, maxResults - 1, i);
    }
  }

  /** Over snapshots that change between pages: names come out ascending, so none twice, and
      every name that was there all along comes out. */
  lemma {:induction false} WalkIsExact(ss: seq<State>, kind: EntityKind, prefix: string, token: Option<string>, maxResults: I64, name: string)
    requires Listable(kind, prefix) && maxResults > 0 && (forall s | s in ss :: Sound(s))
    requires Completes(ss, kind, prefix, token, maxResults)
    ensures var names := Walked(ss, kind, prefix, token, maxResults);
            && Ascending(names, Plain) && AllBeyond(token, names)
            && (Beyond(token, name) && (forall s | s in ss :: Present(s, kind, prefix, name)) ==> name in names)
    decreases |ss|
  {
    hide ListPage, Less, Sound, Present, Listable;
    var (rows, next) := ListPage(ss[0], kind, prefix, token, maxResults);
    PageNames(ss[0], kind, prefix, token, maxResults);
    if next.Some? {
      WalkIsExact(ss[1..], kind, prefix, next, maxResults, name);
      JoinedAscend(Names(rows), Walked(ss[1..], kind, prefix, next, maxResults), token, next.value);
    }
    if Beyond(token, name) && (forall s | s in ss :: Present(s, kind, prefix, name)) {
      PageCovers(ss[0], kind, prefix, token, maxResults, name);
    }
  }

  lemma JoinedAscend(p: seq<string>, q: seq<string>, token: Option<string>, cut: string)
    requires Ascending(p, Plain) && Ascending(q, Plain) && AllBeyond(token, p) && AllBeyond(Some(cut), q) && Beyond(token, cut)
    requires forall n | n in p :: AtMost(n, cut)
    ensures Ascending(p + q, Plain) && AllBeyond(token, p + q)
  {
    hide Less;
    var all := p + q;
    forall i, j | 0 <= i < j < |all| ensures Less(all[i], all[j]) {
      if j < |p| {
        assert Less(Plain(p[i]), Plain(p[j]));
      } else if i < |p| {
        assert all[i] == p[i] && all[j] == q[j - |p|];
        assert p[i] in p && q[j - |p|] in q;
        assert AtMost(p[i], cut) && Less(cut, q[j - |p|]);
        if p[i] != cut { LessTransitive(p[i], cut, q[j - |p|]); }
      } else {
        assert Less(Plain(q[i - |p|]), Plain(q[j - |p|]));
      }
    }
    forall n | n in all ensures Beyond(token, n) {
      if n !in p && token.Some? {
        assert n in q;
        LessTransitive(token.value, cut, n);
      }
    }
  }

  /** Exactly once. */
  lemma WalkReturnsOnce(ss: seq<State>, kind: EntityKind, prefix: string, maxResults: I64, name: string)
    requires Listable(kind, prefix) && maxResults > 0 && (forall s | s in ss :: Sound(s))
    requires Completes(ss, kind, prefix, None, maxResults)
    requires forall s | s in ss :: Present(s, kind, prefix, name)
    ensures multiset(Walked(ss, kind, prefix, None, maxResults))[name] == 1
  {
    hide Sound, Present, Less, ListPage;
    WalkIsExact(ss, kind, prefix, None, maxResults, name);
    AscendingOnce(Walked(ss, kind, prefix, None, maxResults), name);
  }

  lemma {:induction false} AscendingOnce(q: seq<string>, name: string)
    requires Ascending(q, Plain)
    ensures multiset(q)[name] == if name in q then 1 else 0
  {
    if q != [] {
      AscendingTail(q, Plain);
      AscendingOnce(q[1..], name);
      assert q == [q[0]] + q[1..];
    }
  }
}
