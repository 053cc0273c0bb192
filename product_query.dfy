/**
 * The product list endpoint: from the parsed query string to the filter, the
 * projection, the sort order and the page window handed to the store, and
 * the pagination hints of the reply.
 */
module ProductQuery {
  import opened Wrappers
  import opened JsonText
  import opened OperatorRewrite
  import opened JsNumber

  // ---------------------------------------------------------------------------
  // Query parameters

  /** The control parameters that never take part in the filter. */
  const ReservedKeys: seq<string> := ["select", "sort", "page", "limit", "search"]

  /** The keys of an object. */
  function Keys(q: seq<Field>): set<string> {
    if q == [] then {} else {q[0].key} + Keys(q[1..])
  }

  predicate UniqueKeys(q: seq<Field>) {
    forall i, j :: 0 <= i < j < |q| ==> q[i].key != q[j].key
  }

  /**
   * Property access `q[k]`; None is `undefined`. A query object, like every
   * object the query-string parser builds, has unique keys, so the first field
   * with a key is its only one; the lemmas about the filter assume
   * `UniqueKeys` where they need it.
   */
  function Get(q: seq<Field>, k: string): (r: Option<QValue>)
    ensures r.Some? <==> k in Keys(q)
    ensures r.Some? ==> Field(k, r.value) in q
  {
    if q == [] then None else if q[0].key == k then Some(q[0].val) else Get(q[1..], k)
  }

  /** The object without the properties named in ks, in the original order. */
  function Without(q: seq<Field>, ks: seq<string>): seq<Field> {
    if q == [] then [] else (if q[0].key in ks then [] else [q[0]]) + Without(q[1..], ks)
  }

  /** Exactly the properties not named in ks are kept. */
  lemma {:induction false} WithoutMembers(q: seq<Field>, ks: seq<string>)
    ensures forall f :: f in Without(q, ks) <==> f in q && f.key !in ks
  {
    if q != [] {
      WithoutMembers(q[1..], ks);
      assert q == [q[0]] + q[1..];
    }
  }

  /** `delete q[k]`. */
  function Delete(q: seq<Field>, k: string): seq<Field> {
    Without(q, [k])
  }

  /** The copy of the query with the reserved keys removed. */
  function Stripped(q: seq<Field>): seq<Field> {
    Without(q, ReservedKeys)
  }

  lemma {:induction false} WithoutConcat(a: seq<Field>, b: seq<Field>, ks: seq<string>)
    ensures Without(a + b, ks) == Without(a, ks) + Without(b, ks)
  {
    if a == [] {
      assert a + b == b;
    } else {
      assert (a + b)[0] == a[0] && (a + b)[1..] == a[1..] + b;
      WithoutConcat(a[1..], b, ks);
      var h := if a[0].key in ks then [] else [a[0]];
      Assoc(h, Without(a[1..], ks), Without(b, ks));
    }
  }

  lemma {:induction false} DeleteAfterWithout(q: seq<Field>, ks: seq<string>, k: string)
    ensures Delete(Without(q, ks), k) == Without(q, ks + [k])
  {
    if q != [] {
      DeleteAfterWithout(q[1..], ks, k);
      var head := if q[0].key in ks then [] else [q[0]];
      WithoutConcat(head, Without(q[1..], ks), [k]);
      assert q[0].key in ks + [k] <==> q[0].key in ks || q[0].key == k;
      if head != [] {
        assert head[1..] == [];
      }
    }
  }

  lemma {:induction false} WithoutNothing(q: seq<Field>)
    ensures Without(q, []) == q
  {
    if q != [] {
      WithoutNothing(q[1..]);
      assert [q[0]] + q[1..] == q;
    }
  }

  /** Removing keys keeps the keys of an object distinct. */
  lemma {:induction false} WithoutUnique(q: seq<Field>, ks: seq<string>)
    requires UniqueKeys(q)
    ensures UniqueKeys(Without(q, ks))
  {
    if q != [] {
      var rest := Without(q[1..], ks);
      WithoutUnique(q[1..], ks);
      WithoutMembers(q[1..], ks);
      if q[0].key !in ks {
        forall j | 0 <= j < |rest|
          ensures rest[j].key != q[0].key
        {
          assert rest[j] in q[1..];
          var m :| 0 <= m < |q[1..]| && q[1..][m] == rest[j];
          assert q[m + 1] == rest[j];
        }
        var r := [q[0]] + rest;
        forall i, j | 0 <= i < j < |r|
          ensures r[i].key != r[j].key
        {
          if i == 0 {
            assert r[j] == rest[j - 1];
          } else {
            assert r[i] == rest[i - 1] && r[j] == rest[j - 1];
          }
        }
      } else {
        assert Without(q, ks) == rest;
      }
    }
  }

  /** Copies the query and deletes the reserved keys one after the other. */
  method StripReserved(query: seq<Field>) returns (reqQuery: seq<Field>)
    ensures reqQuery == Stripped(query)
  {
    reqQuery := query;
    WithoutNothing(query);
    for i := 0 to |ReservedKeys|
      invariant reqQuery == Without(query, ReservedKeys[..i])
    {
      var param := ReservedKeys[i];
      DeleteAfterWithout(query, ReservedKeys[..i], param);
      assert ReservedKeys[..i + 1] == ReservedKeys[..i] + [param];
      reqQuery := Delete(reqQuery, param);
    }
    assert ReservedKeys[..|ReservedKeys|] == ReservedKeys;
  }

  /** JavaScript truthiness of a parameter: present, and not the empty string. */
  predicate Truthy(v: Option<QValue>) {
    v.Some? && (v.value.Str? ==> v.value.s != "")
  }

  // ---------------------------------------------------------------------------
  // The filter

  /** A filter value: a parameter as the query string gave it, or the search clause. */
  datatype FilterValue = Plain(v: QValue) | SearchOr(term: QValue)

  datatype Entry = Entry(key: string, val: FilterValue)

  type Filter = seq<Entry>

  function Lookup(f: Filter, k: string): Option<FilterValue> {
    if f == [] then None else if f[0].key == k then Some(f[0].val) else Lookup(f[1..], k)
  }

  /**
   * Property assignment `f[k] = v`: an existing property keeps its place and
   * takes the new value, a new one goes at the end.
   */
  function Assign(f: Filter, k: string, v: FilterValue): (r: Filter)
    ensures Lookup(r, k) == Some(v)
    ensures forall k' :: k' != k ==> Lookup(r, k') == Lookup(f, k')
    ensures Lookup(f, k).None? ==> r == f + [Entry(k, v)]
    ensures Lookup(f, k).Some? ==> |r| == |f|
  {
    if f == [] then [Entry(k, v)]
    else if f[0].key == k then [Entry(k, v)] + f[1..]
    else [f[0]] + Assign(f[1..], k, v)
  }

  /** `{...f, ...obj}`: the properties of obj assigned one by one, in order. */
  function Spread(f: Filter, obj: seq<Field>): Filter
    decreases |obj|
  {
    if obj == [] then f else Spread(Assign(f, obj[0].key, Plain(obj[0].val)), obj[1..])
  }

  /** The value of the last property named k. */
  function LastValue(obj: seq<Field>, k: string): (r: Option<QValue>)
    ensures r.None? <==> k !in Keys(obj)
  {
    if obj == [] then None
    else if LastValue(obj[1..], k).Some? then LastValue(obj[1..], k)
    else if obj[0].key == k then Some(obj[0].val)
    else None
  }

  /** Every property of obj overrides the same-named property of f; the others of f stay. */
  lemma {:induction false} SpreadLookup(f: Filter, obj: seq<Field>, k: string)
    ensures Lookup(Spread(f, obj), k)
         == if LastValue(obj, k).Some? then Some(Plain(LastValue(obj, k).value)) else Lookup(f, k)
    decreases |obj|
  {
    if obj != [] {
      SpreadLookup(Assign(f, obj[0].key, Plain(obj[0].val)), obj[1..], k);
    }
  }

  /** The last value of a key that occurs once is that occurrence's value. */
  lemma {:induction false} LastValueOnly(obj: seq<Field>, i: nat)
    requires i < |obj|
    requires forall j :: 0 <= j < |obj| && j != i ==> obj[j].key != obj[i].key
    ensures LastValue(obj, obj[i].key) == Some(obj[i].val)
  {
    var k := obj[i].key;
    if i == 0 {
      NotInKeys(obj[1..], k);
    } else {
      assert obj[1..][i - 1] == obj[i];
      LastValueOnly(obj[1..], i - 1);
    }
  }

  lemma {:induction false} NotInKeys(q: seq<Field>, k: string)
    requires forall j :: 0 <= j < |q| ==> q[j].key != k
    ensures k !in Keys(q)
  {
    if q != [] {
      NotInKeys(q[1..], k);
    }
  }

  /** A position at which a key occurs. */
  function KeyIndex(q: seq<Field>, k: string): (i: nat)
    requires k in Keys(q)
    ensures i < |q| && q[i].key == k
  {
    if q[0].key == k then 0 else 1 + KeyIndex(q[1..], k)
  }

  /** The search clause: `{$or: [title, description, tags matching the term]}` when the term is truthy. */
  function SearchClause(q: seq<Field>): Filter {
    if Truthy(Get(q, "search")) then [Entry("$or", SearchOr(Get(q, "search").value))] else []
  }

  /** `if (reqQuery.k) query.k = reqQuery.k`. */
  function CopyIfSet(f: Filter, reqQuery: seq<Field>, k: string): Filter {
    if Truthy(Get(reqQuery, k)) then Assign(f, k, Plain(Get(reqQuery, k).value)) else f
  }

  /** The query object before the merge: the search clause, then the category, status and maker copies. */
  function BaseQuery(q: seq<Field>): Filter {
    var reqQuery := Stripped(q);
    CopyIfSet(CopyIfSet(CopyIfSet(SearchClause(q), reqQuery, "category"), reqQuery, "status"), reqQuery, "maker")
  }

  /** The filter handed to the store: the base query spread with the operator-rewritten parameters. */
  function FinalFilter(q: seq<Field>): Filter {
    Spread(BaseQuery(q), RewriteFields(Stripped(q)))
  }

  /** The base query only ever holds the search clause and the three copied keys. */
  lemma BaseQueryKeys(q: seq<Field>, k: string)
    ensures k !in ["$or", "category", "status", "maker"] ==> Lookup(BaseQuery(q), k) == None
  {
    var reqQuery := Stripped(q);
    var f0 := SearchClause(q);
    var f1 := CopyIfSet(f0, reqQuery, "category");
    var f2 := CopyIfSet(f1, reqQuery, "status");
    if k !in ["$or", "category", "status", "maker"] {
      assert Lookup(f0, k) == None;
      assert Lookup(f1, k) == None;
      assert Lookup(f2, k) == None;
    }
  }

  /** A rewritten key without `$` is an original key, unchanged. */
  lemma RewrittenKeyOrigin(obj: seq<Field>, k: string)
    requires '$' !in k && k in Keys(RewriteFields(obj))
    ensures k in Keys(obj)
  {
    var r := RewriteFields(obj);
    var i := KeyIndex(r, k);
    assert r[i].key == RewriteRaw(obj[i].key);
    DollarFreeUnchanged(obj[i].key);
    KeyInKeys(obj, i);
  }

  lemma {:induction false} KeyInKeys(q: seq<Field>, i: nat)
    requires i < |q|
    ensures q[i].key in Keys(q)
  {
    if i > 0 {
      assert q[1..][i - 1] == q[i];
      KeyInKeys(q[1..], i - 1);
    }
  }

  lemma {:induction false} KeysMember(q: seq<Field>, k: string)
    requires k in Keys(q)
    ensures exists f :: f in q && f.key == k
  {
    var i := KeyIndex(q, k);
    assert q[i] in q;
  }

  lemma ReservedKeyShape(k: string)
    requires k in ReservedKeys
    ensures '$' !in k && k !in ["$or", "category", "status", "maker"]
  {
  }

  /** No rewritten parameter is named like a reserved key. */
  lemma ParamsOmitReserved(q: seq<Field>, k: string)
    requires k in ReservedKeys
    ensures k !in Keys(RewriteFields(Stripped(q)))
  {
    var obj := Stripped(q);
    ReservedKeyShape(k);
    if k in Keys(RewriteFields(obj)) {
      RewrittenKeyOrigin(obj, k);
      KeysMember(obj, k);
      WithoutMembers(q, ReservedKeys);
    }
  }

  /** None of select, sort, page, limit and search ever reaches the filter. */
  lemma ReservedNeverFilter(q: seq<Field>, k: string)
    requires k in ReservedKeys
    ensures Lookup(FinalFilter(q), k) == None
  {
    SpreadLookup(BaseQuery(q), RewriteFields(Stripped(q)), k);
    ParamsOmitReserved(q, k);
    ReservedKeyShape(k);
    BaseQueryKeys(q, k);
  }

  /**
   * The search clause is in the filter exactly when the search term is truthy
   * and no parameter is named `$or` once rewritten, which would replace it.
   */
  lemma SearchClausePresent(q: seq<Field>)
    ensures (Lookup(FinalFilter(q), "$or").Some? && Lookup(FinalFilter(q), "$or").value.SearchOr?)
        <==> Truthy(Get(q, "search")) && "$or" !in Keys(RewriteFields(Stripped(q)))
    ensures Truthy(Get(q, "search")) && "$or" !in Keys(RewriteFields(Stripped(q)))
        ==> Lookup(FinalFilter(q), "$or") == Some(SearchOr(Get(q, "search").value))
  {
    var obj := RewriteFields(Stripped(q));
    SpreadLookup(BaseQuery(q), obj, "$or");
    var reqQuery := Stripped(q);
    var f0 := SearchClause(q);
    var f1 := CopyIfSet(f0, reqQuery, "category");
    var f2 := CopyIfSet(f1, reqQuery, "status");
    assert Lookup(BaseQuery(q), "$or") == Lookup(f0, "$or");
  }

  /** A parameter key that is a plain word and no operator is not renamed. */
  lemma PlainKeyKept(k: string)
    requires AllWordChars(k) && !IsOperatorToken(k)
    ensures RewriteRaw(k) == k
  {
    RawWord(k);
    assert "" + k == k;
  }

  /** The three copied keys are plain words that the rewrite leaves alone. */
  lemma CopiedKeyKept(k: string)
    requires k in ["category", "status", "maker"]
    ensures '$' !in k && RewriteRaw(k) == k
  {
    if k == "category" {
      PlainKeyKept("category");
    } else if k == "status" {
      PlainKeyKept("status");
    } else {
      PlainKeyKept("maker");
    }
  }

  /**
   * A key without `$` that the rewrite leaves alone and that occurs once in
   * the parameters ends up in the filter with its rewritten value.
   */
  lemma UniqueParamWins(q: seq<Field>, k: string)
    requires UniqueKeys(q) && k !in ReservedKeys && k in Keys(q)
    requires '$' !in k && RewriteRaw(k) == k
    ensures LastValue(RewriteFields(Stripped(q)), k) == Some(RewriteValue(Get(q, k).value))
  {
    var obj := Stripped(q);
    var v := Get(q, k).value;
    WithoutMembers(q, ReservedKeys);
    assert Field(k, v) in obj;
    WithoutUnique(q, ReservedKeys);
    var i :| 0 <= i < |obj| && obj[i] == Field(k, v);
    var r := RewriteFields(obj);
    assert r[i] == Field(k, RewriteValue(v));
    forall j | 0 <= j < |r| && j != i
      ensures r[j].key != k
    {
      if r[j].key == k {
        DollarFreeUnchanged(obj[j].key);
      }
    }
    LastValueOnly(r, i);
  }

  /**
   * The category, status and maker copies never survive: the merge overwrites
   * each with the rewritten parameter of the same name.
   */
  lemma CopiesOverridden(q: seq<Field>, k: string)
    requires UniqueKeys(q) && k in ["category", "status", "maker"] && k in Keys(q)
    ensures Lookup(FinalFilter(q), k) == Some(Plain(RewriteValue(Get(q, k).value)))
  {
    CopiedKeyKept(k);
    UniqueParamWins(q, k);
    SpreadLookup(BaseQuery(q), RewriteFields(Stripped(q)), k);
  }

  // ---------------------------------------------------------------------------
  // Projection and sort order

  /** `s.split(",")`. */
  function SplitCommas(s: string): (parts: seq<string>)
    ensures |parts| >= 1
  {
    if s == [] then [""]
    else
      var rest := SplitCommas(s[1..]);
      if s[0] == ',' then [""] + rest else [[s[0]] + rest[0]] + rest[1..]
  }

  /** `parts.join(" ")`. */
  function JoinSpaces(parts: seq<string>): string
    requires |parts| >= 1
  {
    if |parts| == 1 then parts[0] else parts[0] + " " + JoinSpaces(parts[1..])
  }

  /** `s.split(",").join(" ")`. */
  function SpaceList(s: string): string {
    JoinSpaces(SplitCommas(s))
  }

  /** The comma-to-space character map, as a reference. */
  function CommasToSpaces(s: string): (r: string)
    ensures |r| == |s|
    ensures forall i :: 0 <= i < |s| ==> r[i] == if s[i] == ',' then ' ' else s[i]
  {
    if s == [] then [] else [if s[0] == ',' then ' ' else s[0]] + CommasToSpaces(s[1..])
  }

  lemma CommaStep(s: string)
    requires s != [] && s[0] == ','
    ensures JoinSpaces(SplitCommas(s)) == " " + JoinSpaces(SplitCommas(s[1..]))
  {
    var rest := SplitCommas(s[1..]);
    assert SplitCommas(s) == [""] + rest;
    assert ([""] + rest)[1..] == rest;
    assert "" + " " == " ";
  }

  lemma CharStep(s: string)
    requires s != [] && s[0] != ','
    ensures JoinSpaces(SplitCommas(s)) == [s[0]] + JoinSpaces(SplitCommas(s[1..]))
  {
    var rest := SplitCommas(s[1..]);
    var parts := [[s[0]] + rest[0]] + rest[1..];
    assert SplitCommas(s) == parts;
    if |rest| == 1 {
      assert JoinSpaces(parts) == [s[0]] + rest[0];
    } else {
      assert parts[1..] == rest[1..];
      var tail := JoinSpaces(rest[1..]);
      assert JoinSpaces(rest) == rest[0] + " " + tail;
      assert JoinSpaces(parts) == [s[0]] + rest[0] + " " + tail;
      Assoc4([s[0]], rest[0], " ", tail);
      Assoc([s[0]], rest[0] + " ", tail);
    }
  }

  /** Splitting on commas and joining with spaces replaces every comma by a space and changes nothing else. */
  lemma {:induction false} SpaceListReplacesCommas(s: string)
    ensures SpaceList(s) == CommasToSpaces(s)
  {
    if s != [] {
      SpaceListReplacesCommas(s[1..]);
      if s[0] == ',' {
        CommaStep(s);
      } else {
        CharStep(s);
      }
    }
  }

  /** A step that completes with a value, or throws a `TypeError`. */
  datatype Computed<T> = Done(value: T) | TypeError

  /** `select`: no projection unless truthy; a string has its commas replaced; any other value has no `split`. */
  function Projection(q: seq<Field>): Computed<Option<string>> {
    var v := Get(q, "select");
    if !Truthy(v) then Done(None)
    else if v.value.Str? then Done(Some(SpaceList(v.value.s)))
    else TypeError
  }

  /** `sort`: `-createdAt` unless truthy; otherwise as for `select`. */
  function SortOrder(q: seq<Field>): Computed<string> {
    var v := Get(q, "sort");
    if !Truthy(v) then Done("-createdAt")
    else if v.value.Str? then Done(SpaceList(v.value.s))
    else TypeError
  }

  lemma SortDefault(q: seq<Field>)
    requires !Truthy(Get(q, "sort"))
    ensures SortOrder(q) == Done("-createdAt")
  {
  }

  // ---------------------------------------------------------------------------
  // Pagination

  function PageNumber(q: seq<Field>): int {
    IntOr(Get(q, "page"), 1)
  }

  function PageSize(q: seq<Field>): int {
    IntOr(Get(q, "limit"), 10)
  }

  function StartIndex(q: seq<Field>): int {
    (PageNumber(q) - 1) * PageSize(q)
  }

  function EndIndex(q: seq<Field>): int {
    PageNumber(q) * PageSize(q)
  }

  function Abs(n: int): nat {
    if n < 0 then -n else n
  }

  /**
   * `.skip(skip).limit(limit)` applied to the matching documents in sort order;
   * a negative limit asks for its absolute value.
   */
  function Window<D>(docs: seq<D>, skip: nat, limit: int): (r: seq<D>)
    ensures |r| <= Abs(limit)
    ensures |r| == if skip >= |docs| then 0 else if Abs(limit) < |docs| - skip then Abs(limit) else |docs| - skip
    ensures forall i :: 0 <= i < |r| ==> skip + i < |docs| && r[i] == docs[skip + i]
  {
    if skip >= |docs| then []
    else if Abs(limit) < |docs| - skip then docs[skip..skip + Abs(limit)]
    else docs[skip..]
  }

  /** A missing, non-numeric or zero page is page 1 and such a limit is 10. */
  lemma PaginationDefaults(q: seq<Field>)
    ensures ParseInt(ArgString(Get(q, "page"))) in {None, Some(0)} ==> PageNumber(q) == 1
    ensures ParseInt(ArgString(Get(q, "limit"))) in {None, Some(0)} ==> PageSize(q) == 10
    ensures Get(q, "page") == None ==> PageNumber(q) == 1
    ensures Get(q, "limit") == None ==> PageSize(q) == 10
    ensures PageNumber(q) != 0 && PageSize(q) != 0
  {
    MissingOrObjectIsNaN([]);
  }

  /** A page written as a decimal integer other than zero is taken as it is, negative ones included. */
  lemma PageAsWritten(q: seq<Field>, n: int)
    requires Get(q, "page") == Some(Str(DecimalText(n))) && n != 0
    ensures PageNumber(q) == n
  {
    ParseDecimal(n);
  }

  /** Consecutive windows: the end index is one limit past the start index. */
  lemma WindowBounds(q: seq<Field>)
    ensures EndIndex(q) - StartIndex(q) == PageSize(q)
    ensures PageSize(q) > 0 ==> (StartIndex(q) > 0 <==> PageNumber(q) > 1)
    ensures PageSize(q) > 0 ==> (StartIndex(q) >= 0 <==> PageNumber(q) >= 1)
  {
    var p, l := PageNumber(q), PageSize(q);
    assert p * l - (p - 1) * l == l;
    if l > 0 {
      MulSign(p - 1, l);
    }
  }

  lemma MulSign(a: int, b: int)
    requires b > 0
    ensures a > 0 <==> a * b > 0
    ensures a >= 0 <==> a * b >= 0
  {
    if a > 0 {
      assert a * b >= b;
    } else if a < 0 {
      assert a * b <= -b;
    }
  }

  // ---------------------------------------------------------------------------
  // The endpoint

  /** `{page, limit}` of a neighbouring page. */
  datatype PageHint = PageHint(page: int, limit: int)

  datatype Pagination = Pagination(next: Option<PageHint>, prev: Option<PageHint>)

  datatype ProductList<D> = ProductList(count: nat, pagination: Pagination, total: nat, data: seq<D>)

  /** 200 with the list, or 500 `Server error` for anything thrown. */
  datatype ListReply<D> = Listed(body: ProductList<D>) | ServerError

  /**
   * The filter of `getProducts`: the stripped copy, the search clause, the
   * three copies, then `JSON.parse` of the rewritten `JSON.stringify` text
   * spread over them.
   */
  method BuildFilter(query: seq<Field>) returns (finalQuery: Filter)
    ensures finalQuery == FinalFilter(query)
  {
    var reqQuery := StripReserved(query);

    var filter: Filter := [];
    var search := Get(query, "search");
    if Truthy(search) {
      filter := [Entry("$or", SearchOr(search.value))];
    }
    assert filter == SearchClause(query);
    var category := Get(reqQuery, "category");
    if Truthy(category) {
      filter := Assign(filter, "category", Plain(category.value));
    }
    var status := Get(reqQuery, "status");
    if Truthy(status) {
      filter := Assign(filter, "status", Plain(status.value));
    }
    var maker := Get(reqQuery, "maker");
    if Truthy(maker) {
      filter := Assign(filter, "maker", Plain(maker.value));
    }
    assert filter == BaseQuery(query);

    var queryStr := Serialize(Obj(reqQuery));
    queryStr := RewriteText(queryStr);
    ParseRewritten(Obj(reqQuery));
    var parsed := Parse(queryStr).value;
    finalQuery := Spread(filter, parsed.fields);
  }

  /** The `next` and `prev` hints, added one after the other when they apply. */
  method Paginate(page: int, limit: int, startIndex: int, endIndex: int, total: nat)
    returns (pagination: Pagination)
    ensures pagination.next.Some? <==> endIndex < total
    ensures pagination.next.Some? ==> pagination.next.value == PageHint(page + 1, limit)
    ensures pagination.prev.Some? <==> startIndex > 0
    ensures pagination.prev.Some? ==> pagination.prev.value == PageHint(page - 1, limit)
  {
    pagination := Pagination(None, None);
    if endIndex < total {
      pagination := pagination.(next := Some(PageHint(page + 1, limit)));
    }
    if startIndex > 0 {
      pagination := pagination.(prev := Some(PageHint(page - 1, limit)));
    }
  }

  /**
   * `new RegExp(search, "i")` does not throw: the search term is not truthy,
   * or its text is a pattern the regular-expression syntax accepts.
   */
  predicate SearchCompiles(q: seq<Field>, patternOk: string -> bool) {
    var search := Get(q, "search");
    !Truthy(search) || patternOk(JsToString(search.value))
  }

  /**
   * `GET /api/products`. The store is two functions: the number of documents
   * matching a filter, and the matching documents with the projection and sort
   * order applied; None is a store failure. A negative skip is rejected by the
   * store. `patternOk` is the syntax check of JavaScript regular expressions,
   * which `new RegExp` applies to the search term before the store is asked.
   */
  method GetProducts<D>(query: seq<Field>, patternOk: string -> bool,
                        countDocuments: Filter -> Option<nat>,
                        find: (Filter, Option<string>, string) -> Option<seq<D>>)
    returns (r: ListReply<D>)
    ensures !SearchCompiles(query, patternOk) ==> r == ServerError
    ensures r.Listed? <==>
      && SearchCompiles(query, patternOk)
      && Projection(query).Done? && SortOrder(query).Done? && StartIndex(query) >= 0
      && countDocuments(FinalFilter(query)).Some?
      && find(FinalFilter(query), Projection(query).value, SortOrder(query).value).Some?
    ensures r.Listed? ==>
      var b := r.body;
      var docs := find(FinalFilter(query), Projection(query).value, SortOrder(query).value).value;
      && b.total == countDocuments(FinalFilter(query)).value
      && b.data == Window(docs, StartIndex(query), PageSize(query))
      && b.count == |b.data| <= Abs(PageSize(query))
      && (b.pagination.next.Some? <==> EndIndex(query) < b.total)
      && (b.pagination.next.Some? ==> b.pagination.next.value == PageHint(PageNumber(query) + 1, PageSize(query)))
      && (b.pagination.prev.Some? <==> StartIndex(query) > 0)
      && (b.pagination.prev.Some? ==> b.pagination.prev.value == PageHint(PageNumber(query) - 1, PageSize(query)))
  {
    var search := Get(query, "search");
    if Truthy(search) && !patternOk(JsToString(search.value)) {
      return ServerError;
    }
    var finalQuery := BuildFilter(query);

    var select: Option<string> := None;
    var selectParam := Get(query, "select");
    if Truthy(selectParam) {
      if !selectParam.value.Str? {
        assert Projection(query) == TypeError;
        return ServerError;
      }
      select := Some(SpaceList(selectParam.value.s));
    }
    assert Projection(query) == Done(select);
    var sortBy: string;
    var sortParam := Get(query, "sort");
    if Truthy(sortParam) {
      if !sortParam.value.Str? {
        assert SortOrder(query) == TypeError;
        return ServerError;
      }
      sortBy := SpaceList(sortParam.value.s);
    } else {
      sortBy := "-createdAt";
    }
    assert SortOrder(query) == Done(sortBy);

    var page := IntOr(Get(query, "page"), 1);
    var limit := IntOr(Get(query, "limit"), 10);
    var startIndex := (page - 1) * limit;
    var endIndex := page * limit;
    assert page == PageNumber(query) && limit == PageSize(query);
    assert startIndex == StartIndex(query) && endIndex == EndIndex(query);
    var total := countDocuments(finalQuery);
    if total.None? {
      return ServerError;
    }
    if startIndex < 0 {
      return ServerError;
    }
    var found := find(finalQuery, select, sortBy);
    if found.None? {
      return ServerError;
    }
    var products := Window(found.value, startIndex, limit);

    var pagination := Paginate(page, limit, startIndex, endIndex, total.value);
    r := Listed(ProductList(|products|, pagination, total.value, products));
  }

  // ---------------------------------------------------------------------------
  // The status value that the rewrite breaks

  /** As written: `?status=in-testing` filters on the status `$in-testing`. */
  lemma StatusInTestingRewritten()
    ensures Lookup(FinalFilter([Field("status", Str("in-testing"))]), "status")
         == Some(Plain(Str("$in-testing")))
  {
    var q := [Field("status", Str("in-testing"))];
    assert Keys(q) == {"status"};
    assert Get(q, "status") == Some(Str("in-testing"));
    CopiesOverridden(q, "status");
    HyphenIsBoundary();
  }

  /** Only a key that is exactly an operator, inside a bracket object, gains `$`. */
  function OperatorKeys(v: QValue): QValue {
    match v
    case Obj(fields) => Obj(OperatorKeyFields(fields))
    case _ => v
  }

  function OperatorKeyFields(fields: seq<Field>): (r: seq<Field>)
    ensures |r| == |fields|
    ensures forall i :: 0 <= i < |r| ==>
      r[i] == Field(if IsOperatorToken(fields[i].key) then "$" + fields[i].key else fields[i].key, fields[i].val)
  {
    if fields == [] then []
    else
      var f := fields[0];
      [Field(if IsOperatorToken(f.key) then "$" + f.key else f.key, f.val)] + OperatorKeyFields(fields[1..])
  }

  function OperatorParams(obj: seq<Field>): (r: seq<Field>)
    ensures |r| == |obj|
    ensures forall i :: 0 <= i < |r| ==> r[i] == Field(obj[i].key, OperatorKeys(obj[i].val))
  {
    if obj == [] then [] else [Field(obj[0].key, OperatorKeys(obj[0].val))] + OperatorParams(obj[1..])
  }

  /** Corrected: the parameters keep their names and string values; only bracket operators are renamed. */
  function CorrectedFilter(q: seq<Field>): Filter {
    Spread(BaseQuery(q), OperatorParams(Stripped(q)))
  }

  /** In the corrected filter every parameter keeps its name and only its bracket operators are renamed. */
  lemma CorrectedParamWins(q: seq<Field>, k: string)
    requires UniqueKeys(q) && k !in ReservedKeys && k in Keys(q)
    ensures Lookup(CorrectedFilter(q), k) == Some(Plain(OperatorKeys(Get(q, k).value)))
  {
    var obj := Stripped(q);
    var v := Get(q, k).value;
    WithoutMembers(q, ReservedKeys);
    assert Field(k, v) in obj;
    WithoutUnique(q, ReservedKeys);
    var i :| 0 <= i < |obj| && obj[i] == Field(k, v);
    var r := OperatorParams(obj);
    forall j | 0 <= j < |r| && j != i
      ensures r[j].key != r[i].key
    {
      assert r[j].key == obj[j].key;
    }
    LastValueOnly(r, i);
    SpreadLookup(BaseQuery(q), r, k);
  }

  /** In the corrected filter a string parameter reaches the store unchanged, `in-testing` included. */
  lemma CorrectedKeepsStrings(q: seq<Field>, k: string)
    requires UniqueKeys(q) && k !in ReservedKeys && k in Keys(q) && Get(q, k).value.Str?
    ensures Lookup(CorrectedFilter(q), k) == Some(Plain(Get(q, k).value))
  {
    CorrectedParamWins(q, k);
  }

  /** In the corrected filter `field[op]=x` still becomes `{field: {$op: x}}`. */
  lemma CorrectedRenamesOperators(q: seq<Field>, k: string, op: string, x: QValue)
    requires UniqueKeys(q) && k !in ReservedKeys && IsOperatorToken(op)
    requires Get(q, k) == Some(Obj([Field(op, x)]))
    ensures Lookup(CorrectedFilter(q), k) == Some(Plain(Obj([Field("$" + op, x)])))
  {
    CorrectedParamWins(q, k);
    assert OperatorKeyFields([Field(op, x)]) == [Field("$" + op, x)];
  }
}
