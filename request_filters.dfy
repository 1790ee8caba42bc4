/**
 * Decoding of the observation filters the dashboard's endpoints receive
 * (`dashboard/views/helpers.py`). A query string is the sequence of its
 * `(key, value)` pairs after percent-decoding, in the order they were sent;
 * a key may repeat.
 */
module RequestFilters {
  import opened Wrappers
  import opened Text
  import opened Dates
  import opened Records

  type QueryDict = seq<(string, string)>

  /**
   * An `HttpRequest` as the helpers see it: its method, the parsed URL query,
   * the parsed body (a POST body is formatted like a query string) and the user.
   */
  datatype Request = Request(httpMethod: string, get: QueryDict, body: QueryDict, user: User)

  /** `int()` and `strptime()` raise ValueError on a malformed value. */
  datatype RequestError = ValueError(value: string)

  /** The seven filter dimensions `filters_from_request` returns, in its order. */
  datatype Filters = Filters(
    speciesIds: seq<int>,
    datasetsIds: seq<int>,
    startDate: Option<Date>,
    endDate: Option<Date>,
    areaIds: seq<int>,
    status: Option<string>,
    initialDataImportIds: seq<int>)

  const NoFilters := Filters([], [], None, None, [], None, [])

  /** The keys `filters_from_request` reads. */
  const FilterKeys: set<string> :=
    {"speciesIds[]", "datasetsIds[]", "startDate", "endDate", "areaIds[]", "status", "initialDataImportIds[]"}

  /** `_get_querydict_from_request`: the URL query for GET, the body for any other method. */
  function QueryDictFor(r: Request): (q: QueryDict)
    ensures r.httpMethod == "GET" ==> q == r.get
    ensures r.httpMethod != "GET" ==> q == r.body
  {
    if r.httpMethod == "GET" then r.get else r.body
  }

  /** `i` is the position of the last pair with key `key`. */
  predicate IsLastBinding(q: QueryDict, key: string, i: int) {
    0 <= i < |q| && q[i].0 == key && forall j :: i < j < |q| ==> q[j].0 != key
  }

  /** `QueryDict.get(key, None)`: the value of the last pair with that key. */
  function GetLast(q: QueryDict, key: string): (v: Option<string>)
    ensures v.None? <==> forall i :: 0 <= i < |q| ==> q[i].0 != key
    ensures v.Some? ==> exists i :: IsLastBinding(q, key, i) && q[i].1 == v.value
  {
    if q == [] then None
    else if q[|q| - 1].0 == key then
      assert IsLastBinding(q, key, |q| - 1);
      Some(q[|q| - 1].1)
    else
      var init := q[..|q| - 1];
      var v := GetLast(init, key);
      LastBindingExtends(q, key);
      v
  }

  lemma LastBindingExtends(q: QueryDict, key: string)
    requires q != [] && q[|q| - 1].0 != key
    ensures forall i :: IsLastBinding(q[..|q| - 1], key, i) ==> IsLastBinding(q, key, i)
  {
  }

  /** `QueryDict.getlist(key)`: every value of the key, in the order sent. */
  function GetList(q: QueryDict, key: string): (vs: seq<string>)
    ensures |vs| <= |q|
  {
    if q == [] then []
    else (if q[0].0 == key then [q[0].1] else []) + GetList(q[1..], key)
  }

  /** `getlist` returns exactly the values sent with the key. */
  lemma {:induction false} GetListMembers(q: QueryDict, key: string)
    ensures forall v :: v in GetList(q, key) <==> (key, v) in q
    decreases |q|
  {
    if q != [] {
      GetListMembers(q[1..], key);
      assert q == [q[0]] + q[1..];
    }
  }

  lemma {:induction false} GetListAppend(a: QueryDict, b: QueryDict, key: string)
    ensures GetList(a + b, key) == GetList(a, key) + GetList(b, key)
    decreases |a|
  {
    if a == [] {
      assert a + b == b;
    } else {
      var head := if a[0].0 == key then [a[0].1] else [];
      assert (a + b)[0] == a[0];
      assert (a + b)[1..] == a[1..] + b;
      GetListAppend(a[1..], b, key);
      assert GetList(a + b, key) == head + (GetList(a[1..], key) + GetList(b, key));
      assert head + (GetList(a[1..], key) + GetList(b, key)) == (head + GetList(a[1..], key)) + GetList(b, key);
    }
  }

  /** `idx[k]` is a position of `q` holding the pair `(key, vs[k])`. */
  ghost predicate ValuesAt(q: QueryDict, key: string, vs: seq<string>, idx: seq<int>) {
    |idx| == |vs| && forall k :: 0 <= k < |idx| ==> 0 <= idx[k] < |q| && q[idx[k]].0 == key && q[idx[k]].1 == vs[k]
  }

  ghost predicate Increasing(idx: seq<int>) {
    forall k, l :: 0 <= k < l < |idx| ==> idx[k] < idx[l]
  }

  /** Every position of `q` with key `key` at or after `from` is listed in `idx`. */
  ghost predicate CoversFrom(q: QueryDict, key: string, idx: seq<int>, from: nat) {
    forall i :: from <= i < |q| && q[i].0 == key ==> i in idx
  }

  /**
   * `idx` lists, in increasing order, every position of `q` whose key is
   * `key`, and `vs` holds the values at those positions.
   */
  ghost predicate ValuesAtBindings(q: QueryDict, key: string, vs: seq<string>, idx: seq<int>) {
    ValuesAt(q, key, vs, idx) && Increasing(idx) && CoversFrom(q, key, idx, 0)
  }

  /** `getlist` keeps the order in which the values were sent and each repetition. */
  lemma {:induction false} GetListFollowsBindings(q: QueryDict, key: string) returns (idx: seq<int>)
    ensures ValuesAtBindings(q, key, GetList(q, key), idx)
    decreases |q|
  {
    if q == [] {
      idx := [];
    } else {
      var tail := GetList(q[1..], key);
      var rest := GetListFollowsBindings(q[1..], key);
      var shifted := ShiftBindings(q, key, tail, rest);
      if q[0].0 == key {
        assert GetList(q, key) == [q[0].1] + tail;
        idx := [0] + shifted;
        FirstBinding(q, key, tail, shifted);
      } else {
        assert GetList(q, key) == tail;
        idx := shifted;
        assert CoversFrom(q, key, idx, 0) by {
          assert forall i :: 0 <= i < |q| && q[i].0 == key ==> 1 <= i;
        }
      }
    }
  }

  /** Positions in `q[1..]` moved up by one are the positions past the first in `q`. */
  lemma ShiftBindings(q: QueryDict, key: string, tail: seq<string>, rest: seq<int>) returns (shifted: seq<int>)
    requires q != []
    requires ValuesAtBindings(q[1..], key, tail, rest)
    ensures ValuesAt(q, key, tail, shifted) && Increasing(shifted) && CoversFrom(q, key, shifted, 1)
    ensures forall k :: 0 <= k < |shifted| ==> 1 <= shifted[k]
  {
    var r := q[1..];
    shifted := seq(|rest|, k requires 0 <= k < |rest| => rest[k] + 1);
    assert ValuesAt(q, key, tail, shifted) by {
      forall k | 0 <= k < |shifted|
        ensures 0 <= shifted[k] < |q| && q[shifted[k]].0 == key && q[shifted[k]].1 == tail[k]
      {
        assert shifted[k] == rest[k] + 1 && q[rest[k] + 1] == r[rest[k]];
      }
    }
    assert Increasing(shifted) by {
      forall k, l | 0 <= k < l < |shifted|
        ensures shifted[k] < shifted[l]
      {
        assert rest[k] < rest[l];
      }
    }
    forall i | 1 <= i < |q| && q[i].0 == key
      ensures i in shifted
    {
      assert r[i - 1] == q[i];
      assert i - 1 in rest;
      var k :| 0 <= k < |rest| && rest[k] == i - 1;
      assert shifted[k] == i;
    }
  }

  /** A first pair with the key adds position 0 ahead of the rest. */
  lemma FirstBinding(q: QueryDict, key: string, tail: seq<string>, shifted: seq<int>)
    requires q != [] && q[0].0 == key
    requires ValuesAt(q, key, tail, shifted) && Increasing(shifted) && CoversFrom(q, key, shifted, 1)
    requires forall k :: 0 <= k < |shifted| ==> 1 <= shifted[k]
    ensures ValuesAtBindings(q, key, [q[0].1] + tail, [0] + shifted)
  {
    var idx := [0] + shifted;
    var vs := [q[0].1] + tail;
    forall k | 1 <= k < |idx|
      ensures idx[k] == shifted[k - 1] && vs[k] == tail[k - 1]
    {
    }
    forall i | 1 <= i < |q| && q[i].0 == key
      ensures i in idx
    {
      assert i in shifted;
    }
  }

  /** `get` returns the last of the values `getlist` returns. */
  lemma {:induction false} GetLastIsLastOfList(q: QueryDict, key: string)
    ensures GetLast(q, key) == if GetList(q, key) == [] then None else Some(GetList(q, key)[|GetList(q, key)| - 1])
    decreases |q|
  {
    if q != [] {
      var init := q[..|q| - 1];
      assert q == init + [q[|q| - 1]];
      GetListAppend(init, [q[|q| - 1]], key);
      assert GetList([q[|q| - 1]], key) == (if q[|q| - 1].0 == key then [q[|q| - 1].1] else []) + GetList([], key);
      GetLastIsLastOfList(init, key);
    }
  }

  /**
   * The `extract_*_request` helpers read the query dict of the request,
   * `q == QueryDictFor(request)`.
   */

  /** `extract_str_request`. */
  function ExtractStr(q: QueryDict, name: string): Option<string> {
    GetLast(q, name)
  }

  /** `extract_array_request`: every value of the key in order, `[]` when the key is absent. */
  function ExtractArray(q: QueryDict, name: string): (vs: seq<string>)
    ensures vs == [] <==> forall i :: 0 <= i < |q| ==> q[i].0 != name
    ensures forall v :: v in vs <==> (name, v) in q
    ensures vs == GetList(q, name)
  {
    var vs := GetList(q, name);
    GetListMembers(q, name);
    assert vs == [] <==> forall i :: 0 <= i < |q| ==> q[i].0 != name by {
      if vs != [] {
        assert (name, vs[0]) in q;
      }
    }
    vs
  }

  /** `ns` holds `int()` of each of `values`, position by position. */
  predicate ParsedEach(values: seq<string>, ns: seq<int>) {
    |ns| == |values| && forall i :: 0 <= i < |values| ==> ParseInt(values[i]) == Some(ns[i])
  }

  /** `values[i]` is the first value `int()` refuses. */
  predicate FirstRefusedAt(values: seq<string>, i: int) {
    0 <= i < |values| && ParseInt(values[i]).None? && forall j :: 0 <= j < i ==> ParseInt(values[j]).Some?
  }

  /** `list(map(lambda e: int(e), values))`: the first value `int()` refuses raises. */
  function ParseAll(values: seq<string>): (r: Result<seq<int>, RequestError>)
    ensures r.Ok? ==> ParsedEach(values, r.value)
    ensures r.Err? ==> exists i :: FirstRefusedAt(values, i) && r.error == ValueError(values[i])
  {
    if values == [] then Ok([])
    else
      var head := ParseInt(values[0]);
      var tail := ParseAll(values[1..]);
      var r := if head.None? then Err(ValueError(values[0]))
               else if tail.Err? then Err(tail.error)
               else Ok([head.value] + tail.value);
      ParseAllStep(values, head, tail, r);
      r
  }

  /** The first value decides, then the rest as parsed. */
  lemma ParseAllStep(values: seq<string>, head: Option<int>, tail: Result<seq<int>, RequestError>, r: Result<seq<int>, RequestError>)
    requires values != [] && head == ParseInt(values[0])
    requires tail.Ok? ==> ParsedEach(values[1..], tail.value)
    requires tail.Err? ==> exists i :: FirstRefusedAt(values[1..], i) && tail.error == ValueError(values[1..][i])
    requires r == if head.None? then Err(ValueError(values[0]))
                  else if tail.Err? then Err(tail.error)
                  else Ok([head.value] + tail.value)
    ensures r.Ok? ==> ParsedEach(values, r.value)
    ensures r.Err? ==> exists i :: FirstRefusedAt(values, i) && r.error == ValueError(values[i])
  {
    if head.None? {
      assert FirstRefusedAt(values, 0);
    } else if tail.Err? {
      var i :| FirstRefusedAt(values[1..], i) && tail.error == ValueError(values[1..][i]);
      assert values[1..][i] == values[i + 1];
      forall j | 0 <= j < i + 1 ensures ParseInt(values[j]).Some? {
        if j > 0 { assert values[j] == values[1..][j - 1]; }
      }
      assert FirstRefusedAt(values, i + 1);
    } else {
      forall i | 0 <= i < |values| ensures ParseInt(values[i]) == Some(r.value[i]) {
        if i > 0 { assert values[i] == values[1..][i - 1]; }
      }
    }
  }

  /** `extract_int_array_request`. */
  function ExtractIntArray(q: QueryDict, name: string): Result<seq<int>, RequestError> {
    ParseAll(ExtractArray(q, name))
  }

  /** A scalar parameter that means "no value": absent, empty or the string `null`. */
  predicate IsNoValue(v: Option<string>) {
    v.None? || v.value == "" || v.value == "null"
  }

  /** `extract_int_request`: None for no value, else `int()` of the last value, ValueError when it is no integer. */
  function ExtractInt(q: QueryDict, name: string): (x: Result<Option<int>, RequestError>)
    ensures x == Ok(None) <==> IsNoValue(GetLast(q, name))
    ensures x.Ok? && x.value.Some? ==> ParseInt(GetLast(q, name).value) == Some(x.value.value)
    ensures x.Err? <==> !IsNoValue(GetLast(q, name)) && ParseInt(GetLast(q, name).value).None?
    ensures x.Err? ==> x.error == ValueError(GetLast(q, name).value)
  {
    var v := ExtractStr(q, name);
    if IsNoValue(v) then Ok(None)
    else
      match ParseInt(v.value)
      case Some(n) => Ok(Some(n))
      case None => Err(ValueError(v.value))
  }

  /** `extract_date_request` with the default `%Y-%m-%d` format: a malformed date raises, it never defaults. */
  function ExtractDate(q: QueryDict, name: string): (x: Result<Option<Date>, RequestError>)
    ensures x == Ok(None) <==> IsNoValue(GetLast(q, name))
    ensures x.Ok? && x.value.Some? ==> Parse(GetLast(q, name).value) == Some(x.value.value) && Valid(x.value.value)
    ensures x.Err? <==> !IsNoValue(GetLast(q, name)) && Parse(GetLast(q, name).value).None?
    ensures x.Err? ==> x.error == ValueError(GetLast(q, name).value)
  {
    var v := ExtractStr(q, name);
    if IsNoValue(v) then Ok(None)
    else
      match Parse(v.value)
      case Some(d) => Ok(Some(d))
      case None => Err(ValueError(v.value))
  }

  /** `filters_from_request`: the keys are read in this order, and the first malformed value raises. */
  function DecodeFilters(q: QueryDict): Result<Filters, RequestError> {
    var speciesIds :- ExtractIntArray(q, "speciesIds[]");
    var datasetsIds :- ExtractIntArray(q, "datasetsIds[]");
    var startDate :- ExtractDate(q, "startDate");
    var endDate :- ExtractDate(q, "endDate");
    var areaIds :- ExtractIntArray(q, "areaIds[]");
    var status := ExtractStr(q, "status");
    var initialDataImportIds :- ExtractIntArray(q, "initialDataImportIds[]");
    Ok(Filters(speciesIds, datasetsIds, startDate, endDate, areaIds, status, initialDataImportIds))
  }

  function FiltersFromRequest(r: Request): Result<Filters, RequestError> {
    DecodeFilters(QueryDictFor(r))
  }

  /** `filtered_observations_from_request`: the primary key of the user, or None for an anonymous visitor. */
  function FilteringUser(r: Request): (u: Option<nat>)
    ensures u.Some? <==> r.user.Authenticated?
    ensures u.Some? ==> u.value == r.user.pk
  {
    if r.user.Authenticated? then Some(r.user.pk) else None
  }

  // ---------------------------------------------------------------- properties

  /** GET reads the URL, every other method the body: the same pairs decode to the same filters. */
  lemma GetAndPostDecodeAlike(q: QueryDict, other: QueryDict, verb: string, user: User)
    requires verb != "GET"
    ensures FiltersFromRequest(Request("GET", q, other, user)) == FiltersFromRequest(Request(verb, other, q, user))
  {
  }

  /**
   * The filters depend on the seven keys and nothing else: two query dicts
   * holding the same values for each of them decode alike.
   */
  lemma DecodeFiltersReadsOnlyItsKeys(q1: QueryDict, q2: QueryDict)
    requires forall k :: k in FilterKeys ==> GetList(q1, k) == GetList(q2, k)
    ensures DecodeFilters(q1) == DecodeFilters(q2)
  {
    SameLastValue(q1, q2, "startDate");
    SameLastValue(q1, q2, "endDate");
    SameLastValue(q1, q2, "status");
    SameIntArray(q1, q2, "speciesIds[]");
    SameIntArray(q1, q2, "datasetsIds[]");
    SameIntArray(q1, q2, "areaIds[]");
    SameIntArray(q1, q2, "initialDataImportIds[]");
  }

  lemma SameIntArray(q1: QueryDict, q2: QueryDict, key: string)
    requires GetList(q1, key) == GetList(q2, key)
    ensures ExtractIntArray(q1, key) == ExtractIntArray(q2, key)
  {
  }

  /** The same values for a key give the same last value. */
  lemma SameLastValue(q1: QueryDict, q2: QueryDict, key: string)
    requires GetList(q1, key) == GetList(q2, key)
    ensures GetLast(q1, key) == GetLast(q2, key)
    ensures ExtractDate(q1, key) == ExtractDate(q2, key)
  {
    GetLastIsLastOfList(q1, key);
    GetLastIsLastOfList(q2, key);
  }

  /** The status is read from `status`: a `status_for_user` pair changes nothing. */
  lemma StatusForUserIgnored(q: QueryDict, v: string)
    ensures DecodeFilters(q + [("status_for_user", v)]) == DecodeFilters(q)
  {
    forall k | k in FilterKeys
      ensures GetList(q + [("status_for_user", v)], k) == GetList(q, k)
    {
      GetListAppend(q, [("status_for_user", v)], k);
      assert GetList([("status_for_user", v)], k) == [] by {
        assert [("status_for_user", v)][1..] == [];
      }
    }
    DecodeFiltersReadsOnlyItsKeys(q + [("status_for_user", v)], q);
  }

  /** The query string the front end sends for `f`: repeated `key[]` pairs for lists, `YYYY-MM-DD` dates. */
  function EncodeInts(key: string, xs: seq<int>): (q: QueryDict)
    ensures |q| == |xs|
    ensures forall i :: 0 <= i < |q| ==> q[i] == (key, IntToString(xs[i]))
  {
    seq(|xs|, i requires 0 <= i < |xs| => (key, IntToString(xs[i])))
  }

  function EncodeOption(key: string, v: Option<string>): QueryDict {
    if v.None? then [] else [(key, v.value)]
  }

  function EncodeDate(key: string, d: Option<Date>): QueryDict
    requires d.Some? ==> Valid(d.value)
  {
    EncodeOption(key, if d.None? then None else Some(Format(d.value)))
  }

  lemma GetListEncodeOption(k: string, v: Option<string>, key: string)
    ensures GetList(EncodeOption(k, v), key) == if k == key && v.Some? then [v.value] else []
  {
    if v.Some? {
      assert EncodeOption(k, v)[1..] == [];
    }
  }

  function EncodeFilters(f: Filters): QueryDict
    requires f.startDate.Some? ==> Valid(f.startDate.value)
    requires f.endDate.Some? ==> Valid(f.endDate.value)
  {
    EncodeInts("speciesIds[]", f.speciesIds) + (EncodeInts("datasetsIds[]", f.datasetsIds)
    + (EncodeDate("startDate", f.startDate) + (EncodeDate("endDate", f.endDate)
    + (EncodeInts("areaIds[]", f.areaIds) + (EncodeOption("status", f.status)
    + EncodeInts("initialDataImportIds[]", f.initialDataImportIds))))))
  }

  /** `[str(x) for x in xs]`. */
  function Texts(xs: seq<int>): (ss: seq<string>)
    ensures |ss| == |xs| && forall i :: 0 <= i < |xs| ==> ss[i] == IntToString(xs[i])
  {
    seq(|xs|, i requires 0 <= i < |xs| => IntToString(xs[i]))
  }

  lemma {:induction false} GetListEncodeInts(key: string, other: string, xs: seq<int>)
    ensures GetList(EncodeInts(key, xs), other) == if key == other then Texts(xs) else []
    decreases |xs|
  {
    if xs != [] {
      assert EncodeInts(key, xs)[1..] == EncodeInts(key, xs[1..]);
      GetListEncodeInts(key, other, xs[1..]);
      assert Texts(xs) == [IntToString(xs[0])] + Texts(xs[1..]);
    }
  }

  lemma ParseAllIntToString(xs: seq<int>)
    ensures ParseAll(Texts(xs)) == Ok(xs)
  {
    var ss := Texts(xs);
    forall i | 0 <= i < |xs| ensures ParseInt(ss[i]) == Some(xs[i]) {
      ParseIntOfIntToString(xs[i]);
    }
    assert ParseAll(ss).Ok?;
    assert ParseAll(ss).value == xs;
  }

  lemma GetListSegments(a: QueryDict, b: QueryDict, c: QueryDict, d: QueryDict, e: QueryDict, g: QueryDict, h: QueryDict, key: string)
    ensures GetList(a + (b + (c + (d + (e + (g + h))))), key)
      == GetList(a, key) + (GetList(b, key) + (GetList(c, key) + (GetList(d, key) + (GetList(e, key) + (GetList(g, key) + GetList(h, key))))))
  {
    GetListAppend(g, h, key);
    GetListAppend(e, g + h, key);
    GetListAppend(d, e + (g + h), key);
    GetListAppend(c, d + (e + (g + h)), key);
    GetListAppend(b, c + (d + (e + (g + h))), key);
    GetListAppend(a, b + (c + (d + (e + (g + h)))), key);
  }

  /** The values `getlist(key)` finds in the encoding of `f`, segment by segment. */
  lemma GetListEncodeFilters(f: Filters, key: string)
    requires f.startDate.Some? ==> Valid(f.startDate.value)
    requires f.endDate.Some? ==> Valid(f.endDate.value)
    ensures GetList(EncodeFilters(f), key)
      == (if key == "speciesIds[]" then Texts(f.speciesIds) else [])
      + ((if key == "datasetsIds[]" then Texts(f.datasetsIds) else [])
      + ((if key == "startDate" && f.startDate.Some? then [Format(f.startDate.value)] else [])
      + ((if key == "endDate" && f.endDate.Some? then [Format(f.endDate.value)] else [])
      + ((if key == "areaIds[]" then Texts(f.areaIds) else [])
      + ((if key == "status" && f.status.Some? then [f.status.value] else [])
      + (if key == "initialDataImportIds[]" then Texts(f.initialDataImportIds) else []))))))
  {
    var a := EncodeInts("speciesIds[]", f.speciesIds);
    var b := EncodeInts("datasetsIds[]", f.datasetsIds);
    var c := EncodeDate("startDate", f.startDate);
    var d := EncodeDate("endDate", f.endDate);
    var e := EncodeInts("areaIds[]", f.areaIds);
    var g := EncodeOption("status", f.status);
    var h := EncodeInts("initialDataImportIds[]", f.initialDataImportIds);
    assert EncodeFilters(f) == a + (b + (c + (d + (e + (g + h)))));
    GetListSegments(a, b, c, d, e, g, h, key);
    GetListEncodeInts("speciesIds[]", key, f.speciesIds);
    GetListEncodeInts("datasetsIds[]", key, f.datasetsIds);
    GetListEncodeInts("areaIds[]", key, f.areaIds);
    GetListEncodeInts("initialDataImportIds[]", key, f.initialDataImportIds);
    GetListEncodeOption("startDate", if f.startDate.None? then None else Some(Format(f.startDate.value)), key);
    GetListEncodeOption("endDate", if f.endDate.None? then None else Some(Format(f.endDate.value)), key);
    GetListEncodeOption("status", f.status, key);
  }

  lemma DecodeEncodedIds(f: Filters, key: string, ids: seq<int>)
    requires f.startDate.Some? ==> Valid(f.startDate.value)
    requires f.endDate.Some? ==> Valid(f.endDate.value)
    requires || (key == "speciesIds[]" && ids == f.speciesIds)
             || (key == "datasetsIds[]" && ids == f.datasetsIds)
             || (key == "areaIds[]" && ids == f.areaIds)
             || (key == "initialDataImportIds[]" && ids == f.initialDataImportIds)
    ensures ExtractIntArray(EncodeFilters(f), key) == Ok(ids)
  {
    GetListEncodeFilters(f, key);
    assert GetList(EncodeFilters(f), key) == Texts(ids) by {
      if key == "speciesIds[]" {
      } else if key == "datasetsIds[]" {
      } else if key == "areaIds[]" {
      } else {
      }
    }
    ExtractIntArrayOfTexts(EncodeFilters(f), key, ids);
  }

  lemma ExtractIntArrayOfTexts(q: QueryDict, key: string, ids: seq<int>)
    requires GetList(q, key) == Texts(ids)
    ensures ExtractIntArray(q, key) == Ok(ids)
  {
    ParseAllIntToString(ids);
  }

  lemma DecodeEncodedDate(f: Filters, key: string, date: Option<Date>)
    requires f.startDate.Some? ==> Valid(f.startDate.value)
    requires f.endDate.Some? ==> Valid(f.endDate.value)
    requires (key == "startDate" && date == f.startDate) || (key == "endDate" && date == f.endDate)
    ensures ExtractDate(EncodeFilters(f), key) == Ok(date)
  {
    GetListEncodeFilters(f, key);
    assert GetList(EncodeFilters(f), key) == if date.Some? then [Format(date.value)] else [];
    ExtractDateOfFormatted(EncodeFilters(f), key, date);
  }

  /** A key whose only value is a formatted date, or that is absent, reads back as that date. */
  lemma ExtractDateOfFormatted(q: QueryDict, key: string, date: Option<Date>)
    requires date.Some? ==> Valid(date.value)
    requires GetList(q, key) == if date.Some? then [Format(date.value)] else []
    ensures ExtractDate(q, key) == Ok(date)
  {
    GetLastIsLastOfList(q, key);
    if date.Some? {
      ParseFormat(date.value);
    }
  }

  lemma DecodeEncodedStatus(f: Filters)
    requires f.startDate.Some? ==> Valid(f.startDate.value)
    requires f.endDate.Some? ==> Valid(f.endDate.value)
    ensures ExtractStr(EncodeFilters(f), "status") == f.status
  {
    GetListEncodeFilters(f, "status");
    GetLastIsLastOfList(EncodeFilters(f), "status");
  }

  /** Decoding the query string the front end builds for `f` gives back `f`. */
  lemma DecodeEncodeFilters(f: Filters)
    requires f.startDate.Some? ==> Valid(f.startDate.value)
    requires f.endDate.Some? ==> Valid(f.endDate.value)
    ensures DecodeFilters(EncodeFilters(f)) == Ok(f)
  {
    DecodeEncodedIds(f, "speciesIds[]", f.speciesIds);
    DecodeEncodedIds(f, "datasetsIds[]", f.datasetsIds);
    DecodeEncodedDate(f, "startDate", f.startDate);
    DecodeEncodedDate(f, "endDate", f.endDate);
    DecodeEncodedIds(f, "areaIds[]", f.areaIds);
    DecodeEncodedStatus(f);
    DecodeEncodedIds(f, "initialDataImportIds[]", f.initialDataImportIds);
  }
}
