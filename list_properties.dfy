/** The property listing special page: choosing the data type filter from the
    request, sorting the matching property ids by their serialization, and
    returning one page of them (with their terms prefetched). */
module ListProperties {
  import opened Wrappers
  import opened EntityIds

  // ---------------------------------------------------------------------------
  // String order (ksort on non-numeric string keys)

  /** `a` sorts before or equal to `b`, character by character, a prefix first. */
  predicate Below(a: string, b: string) {
    |a| == 0 || (|b| > 0 && (a[0] < b[0] || (a[0] == b[0] && Below(a[1..], b[1..]))))
  }

  lemma {:induction false} BelowTotal(a: string, b: string)
    ensures Below(a, b) || Below(b, a)
  {
    if |a| > 0 && |b| > 0 && a[0] == b[0] {
      BelowTotal(a[1..], b[1..]);
    }
  }

  lemma {:induction false} BelowAntisymmetric(a: string, b: string)
    requires Below(a, b) && Below(b, a)
    ensures a == b
  {
    if |a| > 0 && |b| > 0 {
      BelowAntisymmetric(a[1..], b[1..]);
      assert a == [a[0]] + a[1..] && b == [b[0]] + b[1..];
    }
  }

  lemma {:induction false} BelowTransitive(a: string, b: string, c: string)
    requires Below(a, b) && Below(b, c)
    ensures Below(a, c)
  {
    if |a| > 0 && |b| > 0 && |c| > 0 && a[0] == b[0] && b[0] == c[0] {
      BelowTransitive(a[1..], b[1..], c[1..]);
    }
  }

  /** Strictly increasing in string order, hence without repeats. */
  predicate Sorted(s: seq<string>) {
    forall i, j :: 0 <= i < j < |s| ==> Below(s[i], s[j]) && s[i] != s[j]
  }

  lemma {:induction false} MinimumExists(keys: set<string>)
    requires keys != {}
    ensures exists m :: m in keys && forall k :: k in keys ==> Below(m, k)
    decreases |keys|
  {
    var x :| x in keys;
    var rest := keys - {x};
    if rest == {} {
      assert keys == {x};
      BelowTotal(x, x);
      assert forall k :: k in keys ==> Below(x, k);
    } else {
      MinimumExists(rest);
      var m :| m in rest && forall k :: k in rest ==> Below(m, k);
      MinimumOfOneMore(rest, x, m);
      assert keys == rest + {x};
    }
  }

  /** The smaller of a set's minimum and one more key is the minimum of both. */
  lemma MinimumOfOneMore(rest: set<string>, x: string, m: string)
    requires m in rest && forall k :: k in rest ==> Below(m, k)
    ensures exists n :: n in rest + {x} && forall k :: k in rest + {x} ==> Below(n, k)
  {
    BelowTotal(m, x);
    if Below(m, x) {
      assert m in rest + {x};
    } else {
      forall k | k in rest + {x}
        ensures Below(x, k)
      {
        if k == x {
          BelowTotal(x, x);
        } else {
          BelowTransitive(x, m, k);
        }
      }
      assert x in rest + {x};
    }
  }

  ghost function Minimum(keys: set<string>): (m: string)
    requires keys != {}
    ensures m in keys && forall k :: k in keys ==> Below(m, k)
  {
    MinimumExists(keys);
    var m :| m in keys && forall k :: k in keys ==> Below(m, k);
    m
  }

  /** The keys of a set in string order: the order ksort leaves them in. */
  ghost function SortedKeys(keys: set<string>): (r: seq<string>)
    ensures Sorted(r)
    ensures forall k :: k in r <==> k in keys
    ensures |r| == |keys|
    decreases |keys|
  {
    if keys == {} then []
    else
      var m := Minimum(keys);
      var rest := SortedKeys(keys - {m});
      assert forall j :: 0 <= j < |rest| ==> Below(m, rest[j]) && m != rest[j] by {
        forall j | 0 <= j < |rest| ensures Below(m, rest[j]) && m != rest[j] {
          assert rest[j] in rest;
        }
      }
      SortedCons(m, rest);
      [m] + rest
  }

  /** A key below every entry of a sorted list, and not in it, may go in front. */
  lemma SortedCons(m: string, rest: seq<string>)
    requires Sorted(rest)
    requires forall j :: 0 <= j < |rest| ==> Below(m, rest[j]) && m != rest[j]
    ensures Sorted([m] + rest)
  {
    var s := [m] + rest;
    forall i, j | 0 <= i < j < |s|
      ensures Below(s[i], s[j]) && s[i] != s[j]
    {
      assert s[j] == rest[j - 1];
      if i > 0 {
        assert s[i] == rest[i - 1];
      }
    }
  }

  /** A sorted list of exactly the keys is the one SortedKeys gives. */
  lemma {:induction false} SortedKeysUnique(s: seq<string>, keys: set<string>)
    requires Sorted(s)
    requires forall k :: k in s <==> k in keys
    ensures s == SortedKeys(keys)
    decreases |s|
  {
    if s == [] {
      assert keys == {};
    } else {
      HeadIsMinimum(s, keys);
      var rest := keys - {s[0]};
      assert SortedKeys(keys) == [s[0]] + SortedKeys(rest);
      TailHoldsTheRest(s, keys);
      SortedKeysUnique(s[1..], rest);
      assert s == [s[0]] + s[1..];
    }
  }

  lemma HeadIsMinimum(s: seq<string>, keys: set<string>)
    requires Sorted(s) && |s| > 0
    requires forall k :: k in s <==> k in keys
    ensures keys != {} && s[0] == Minimum(keys)
  {
    assert s[0] in s;
    var m := Minimum(keys);
    assert Below(m, s[0]);
    assert m in s;
    var j :| 0 <= j < |s| && s[j] == m;
    if j != 0 {
      assert Below(s[0], s[j]);
      BelowAntisymmetric(m, s[0]);
    }
  }

  lemma TailHoldsTheRest(s: seq<string>, keys: set<string>)
    requires Sorted(s) && |s| > 0
    requires forall k :: k in s <==> k in keys
    ensures Sorted(s[1..])
    ensures forall k :: k in s[1..] <==> k in keys - {s[0]}
  {
    forall k
      ensures k in s[1..] <==> k in keys - {s[0]}
    {
      if k in s[1..] {
        var i :| 0 <= i < |s[1..]| && s[1..][i] == k;
        assert s[i + 1] != s[0];
      }
      if k in keys - {s[0]} {
        assert k in s && k != s[0];
      }
    }
  }

  /** Places `k` into a sorted list. */
  function Insert(s: seq<string>, k: string): (r: seq<string>)
    requires Sorted(s) && k !in s
    ensures Sorted(r)
    ensures forall x :: x in r <==> x in s || x == k
    ensures |r| == |s| + 1
  {
    if s == [] then [k]
    else
      BelowTotal(k, s[0]);
      if Below(k, s[0]) then
        assert forall j :: 0 <= j < |s| ==> Below(k, s[j]) by {
          forall j | 0 <= j < |s| ensures Below(k, s[j]) {
            if j > 0 { BelowTransitive(k, s[0], s[j]); }
          }
        }
        [k] + s
      else
        var rest := Insert(s[1..], k);
        assert forall x :: x in s <==> x == s[0] || x in s[1..] by {
          assert s == [s[0]] + s[1..];
        }
        assert forall j :: 0 <= j < |rest| ==> Below(s[0], rest[j]) && s[0] != rest[j] by {
          forall j | 0 <= j < |rest| ensures Below(s[0], rest[j]) && s[0] != rest[j] {
            if rest[j] == k {
              BelowTotal(s[0], k);
            } else {
              assert rest[j] in rest;
              assert rest[j] in s[1..];
              var i :| 0 <= i < |s[1..]| && s[1..][i] == rest[j];
              assert s[i + 1] == rest[j];
            }
          }
        }
        [s[0]] + rest
  }

  // ---------------------------------------------------------------------------
  // Paging

  /** array_slice($list, $offset, $limit): at most `limit` entries starting at `offset`. */
  function Slice(s: seq<string>, offset: nat, limit: nat): (r: seq<string>)
    ensures |r| <= limit
    ensures offset <= |s| ==> |r| == if offset + limit <= |s| then limit else |s| - offset
    ensures offset >= |s| ==> r == []
    ensures forall i :: 0 <= i < |r| ==> offset + i < |s| && r[i] == s[offset + i]
  {
    if offset >= |s| then []
    else if offset + limit <= |s| then s[offset..offset + limit]
    else s[offset..]
  }

  /** Consecutive pages cover the list without gaps or overlaps. */
  lemma PagesAreConsecutive(s: seq<string>, offset: nat, first: nat, second: nat)
    ensures Slice(s, offset, first) + Slice(s, offset + first, second) == Slice(s, offset, first + second)
  {
    var a := Slice(s, offset, first);
    var b := Slice(s, offset + first, second);
    var c := Slice(s, offset, first + second);
    assert |a + b| == |c|;
    forall i | 0 <= i < |c|
      ensures (a + b)[i] == c[i]
    {
      if i >= |a| {
        assert |a| == first;
      }
    }
  }

  // ---------------------------------------------------------------------------
  // The page

  /** WebRequest::getText('datatype', $subPage): the request value, else the
      sub page, else the empty string. */
  function RequestedDataType(requestValue: Option<string>, subPage: Option<string>): string {
    requestValue.GetOr(subPage.GetOr(""))
  }

  /** The data type filter prepareArguments settles on: "" (all), a known type
      id, or None for an unknown one. */
  function DataTypeFilter(typeIds: seq<string>, requested: string): (r: Option<string>)
    ensures r.None? <==> requested != "" && requested !in typeIds
    ensures r.Some? ==> r.value == requested
  {
    if requested != "" && requested !in typeIds then None else Some(requested)
  }

  /** The serializations of the properties matching a filter: all of them for
      "", otherwise those whose data type is the filter. */
  function MatchingKeys(propertyInfo: map<string, string>, dataType: string): (r: set<string>)
    ensures dataType == "" ==> r == propertyInfo.Keys
    ensures dataType != "" ==> forall k :: k in r <==> k in propertyInfo && propertyInfo[k] == dataType
  {
    if dataType == "" then propertyInfo.Keys
    else set k | k in propertyInfo && propertyInfo[k] == dataType
  }

  /** The page of property ids shown for a filter, offset and limit. */
  ghost function ResultPage(propertyInfo: map<string, string>, dataType: string, offset: nat, limit: nat): seq<string> {
    Slice(SortedKeys(MatchingKeys(propertyInfo, dataType)), offset, limit)
  }

  /** Every key of the property info store is a property id serialization. */
  predicate KeysArePropertyIds(propertyInfo: map<string, string>) {
    forall k :: k in propertyInfo ==> Parse(k).Some? && Parse(k).value.entityType == PropertyType
  }

  /** Every entry of a result page parses as a property id. */
  lemma ResultPageParses(propertyInfo: map<string, string>, dataType: string, offset: nat, limit: nat)
    requires KeysArePropertyIds(propertyInfo)
    ensures forall i :: 0 <= i < |ResultPage(propertyInfo, dataType, offset, limit)| ==>
      && Parse(ResultPage(propertyInfo, dataType, offset, limit)[i]).Some?
      && Parse(ResultPage(propertyInfo, dataType, offset, limit)[i]).value.entityType == PropertyType
  {
    var info := SortedKeys(MatchingKeys(propertyInfo, dataType));
    var page := ResultPage(propertyInfo, dataType, offset, limit);
    forall i | 0 <= i < |page|
      ensures Parse(page[i]).Some? && Parse(page[i]).value.entityType == PropertyType
    {
      assert page[i] == info[offset + i];
      assert page[i] in MatchingKeys(propertyInfo, dataType);
    }
  }

  /** The ids a list of serializations stands for. */
  function IdsOf(serializations: seq<string>): (r: seq<EntityId>)
    requires forall i :: 0 <= i < |serializations| ==> Parse(serializations[i]).Some?
    ensures |r| == |serializations|
    ensures forall i :: 0 <= i < |r| ==> Format(r[i]) == serializations[i]
  {
    if serializations == [] then []
    else [Parse(serializations[0]).value] + IdsOf(serializations[1..])
  }

  /** The loop of getResult turning each serialization into its property id. */
  method ParseIds(page: seq<string>) returns (ids: seq<EntityId>)
    requires forall i :: 0 <= i < |page| ==>
      Parse(page[i]).Some? && Parse(page[i]).value.entityType == PropertyType
    ensures |ids| == |page|
    ensures forall i :: 0 <= i < |ids| ==>
      Format(ids[i]) == page[i] && ids[i].entityType == PropertyType && ValidEntityId(ids[i])
  {
    ids := [];
    var i := 0;
    while i < |page|
      invariant 0 <= i <= |page|
      invariant |ids| == i
      invariant forall j :: 0 <= j < i ==>
        Format(ids[j]) == page[j] && ids[j].entityType == PropertyType && ValidEntityId(ids[j])
    {
      var id := Parse(page[i]);
      ids := ids + [id.value];
      i := i + 1;
    }
  }

  class ListPropertiesPage {
    const typeIds: seq<string>
    const propertyInfo: map<string, string>
    var dataType: Option<string>
    var errors: seq<string>
    var prefetched: seq<EntityId>

    constructor(typeIds: seq<string>, propertyInfo: map<string, string>)
      requires KeysArePropertyIds(propertyInfo)
      ensures this.typeIds == typeIds && this.propertyInfo == propertyInfo
      ensures dataType == Some("") && errors == [] && prefetched == []
    {
      this.typeIds := typeIds;
      this.propertyInfo := propertyInfo;
      dataType := Some("");
      errors := [];
      prefetched := [];
    }

    /** prepareArguments: an unknown, non-empty data type is reported and dropped. */
    method PrepareArguments(requestValue: Option<string>, subPage: Option<string>)
      modifies this
      ensures dataType == DataTypeFilter(typeIds, RequestedDataType(requestValue, subPage))
      ensures dataType.None? ==> errors == old(errors) + ["wikibase-listproperties-invalid-datatype"]
      ensures dataType.Some? ==> errors == old(errors)
      ensures prefetched == old(prefetched)
    {
      dataType := Some(RequestedDataType(requestValue, subPage));
      if dataType.value != "" && dataType.value !in typeIds {
        errors := errors + ["wikibase-listproperties-invalid-datatype"];
        dataType := None;
      }
    }

    /** getPropertyInfo: the matching serializations, sorted by ksort. */
    method GetPropertyInfo() returns (keys: seq<string>)
      requires dataType.Some?
      ensures keys == SortedKeys(MatchingKeys(propertyInfo, dataType.value))
    {
      var remaining := MatchingKeys(propertyInfo, dataType.value);
      keys := [];
      while remaining != {}
        invariant Sorted(keys)
        invariant forall k :: k in keys ==> k !in remaining
        invariant forall k :: k in MatchingKeys(propertyInfo, dataType.value) <==> k in keys || k in remaining
        decreases |remaining|
      {
        var k :| k in remaining;
        keys := Insert(keys, k);
        remaining := remaining - {k};
      }
      SortedKeysUnique(keys, MatchingKeys(propertyInfo, dataType.value));
    }

    /** getResult: one page of the sorted ids; their terms are prefetched. */
    method GetResult(offset: nat, limit: nat) returns (ids: seq<EntityId>)
      requires dataType.Some? && KeysArePropertyIds(propertyInfo)
      modifies this
      ensures dataType == old(dataType) && errors == old(errors)
      ensures |ids| == |ResultPage(propertyInfo, dataType.value, offset, limit)|
      ensures forall i :: 0 <= i < |ids| ==>
        Format(ids[i]) == ResultPage(propertyInfo, dataType.value, offset, limit)[i]
        && ids[i].entityType == PropertyType
      ensures prefetched == ids
    {
      var info := GetPropertyInfo();
      var page := Slice(info, offset, limit);
      assert page == ResultPage(propertyInfo, dataType.value, offset, limit);
      ResultPageParses(propertyInfo, dataType.value, offset, limit);
      ids := ParseIds(page);
      prefetched := ids;
    }

    /** execute: the query runs only when a usable data type was requested. */
    method Execute(requestValue: Option<string>, subPage: Option<string>, offset: nat, limit: nat)
      returns (shown: Option<seq<EntityId>>)
      requires KeysArePropertyIds(propertyInfo)
      modifies this
      ensures dataType == DataTypeFilter(typeIds, RequestedDataType(requestValue, subPage))
      ensures shown.None? <==> dataType.None?
      ensures shown.Some? ==>
        && |shown.value| == |ResultPage(propertyInfo, dataType.value, offset, limit)|
        && (forall i :: 0 <= i < |shown.value| ==>
              Format(shown.value[i]) == ResultPage(propertyInfo, dataType.value, offset, limit)[i])
        && prefetched == shown.value
      ensures shown.None? ==>
        errors == old(errors) + ["wikibase-listproperties-invalid-datatype"] && prefetched == old(prefetched)
      ensures shown.Some? ==> errors == old(errors)
    {
      PrepareArguments(requestValue, subPage);
      if dataType.None? {
        return None;
      }
      var ids := GetResult(offset, limit);
      shown := Some(ids);
    }
  }

  /** A page holds at most `limit` ids, each matching the filter, in string
      order, and consecutive pages line up. */
  lemma {:induction false} ResultPageProperties(
    propertyInfo: map<string, string>, dataType: string, offset: nat, limit: nat)
    ensures |ResultPage(propertyInfo, dataType, offset, limit)| <= limit
    ensures Sorted(ResultPage(propertyInfo, dataType, offset, limit))
    ensures forall k :: k in ResultPage(propertyInfo, dataType, offset, limit) ==>
      k in propertyInfo && (dataType == "" || propertyInfo[k] == dataType)
    ensures ResultPage(propertyInfo, dataType, 0, offset) + ResultPage(propertyInfo, dataType, offset, limit)
      == ResultPage(propertyInfo, dataType, 0, offset + limit)
  {
    var all := SortedKeys(MatchingKeys(propertyInfo, dataType));
    PagesAreConsecutive(all, 0, offset, limit);
    var page := ResultPage(propertyInfo, dataType, offset, limit);
    forall k | k in page
      ensures k in all
    {
      var i :| 0 <= i < |page| && page[i] == k;
      assert all[offset + i] == k;
    }
  }
}
