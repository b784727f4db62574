/** The data router: the latest smoothed and predicted series of every data type, one entry
    per data type name, kept in ascending order of the names. */
module FinalDataRouter {
  import opened Wrappers
  import Strings
  import StatisticalStore

  /** One point of a series: a number of bytes and the time (ms) it belongs to. */
  datatype FinalData = FinalData(dataElement: nat, timestamp: int)

  /** The series of one data type; a missing series is None (a nil slice pointer). */
  datatype OutputData = OutputData(dataType: StatisticalStore.DataType,
                                   smoothedData: Option<seq<FinalData>>,
                                   predictedData: Option<seq<FinalData>>)

  function Name(o: OutputData): string {
    o.dataType.name
  }

  // ---------------------------------------------------------------------------------------
  // Searching and splicing
  // ---------------------------------------------------------------------------------------

  /** The first index holding the name, or -1. */
  function IndexOfName(s: seq<OutputData>, name: string): (i: int)
    ensures -1 <= i < |s|
    ensures i >= 0 ==> Name(s[i]) == name && forall j :: 0 <= j < i ==> Name(s[j]) != name
    ensures i == -1 ==> forall j :: 0 <= j < |s| ==> Name(s[j]) != name
  {
    if s == [] then -1
    else if Name(s[0]) == name then 0
    else
      var r := IndexOfName(s[1..], name);
      if r == -1 then -1 else r + 1
  }

  /** The list without the element at `index`; unchanged for a negative index. */
  function RemoveAt(s: seq<OutputData>, index: int): (r: seq<OutputData>)
    requires index < |s|
    ensures index < 0 ==> r == s
    ensures index >= 0 ==> (|r| == |s| - 1 &&
                            (forall j :: 0 <= j < index ==> r[j] == s[j]) &&
                            (forall j :: index <= j < |r| ==> r[j] == s[j + 1]))
  {
    if index >= 0 then s[..index] + s[index + 1..] else s
  }

  // ---------------------------------------------------------------------------------------
  // Stable sorting by name
  // ---------------------------------------------------------------------------------------

  /** Names never decrease along the list. */
  predicate SortedByName(s: seq<OutputData>) {
    forall i, j :: 0 <= i < j < |s| ==> !Strings.Less(Name(s[j]), Name(s[i]))
  }

  /** Names strictly increase along the list (so each name appears once). */
  predicate StrictlyByName(s: seq<OutputData>) {
    forall i, j :: 0 <= i < j < |s| ==> Strings.Less(Name(s[i]), Name(s[j]))
  }

  /** The entries with one name, in their order in the list. */
  function WithName(s: seq<OutputData>, name: string): seq<OutputData> {
    if s == [] then [] else (if Name(s[0]) == name then [s[0]] else []) + WithName(s[1..], name)
  }

  /** Inserts `x` after every entry whose name does not sort after its own. */
  function InsertByName(s: seq<OutputData>, x: OutputData): seq<OutputData> {
    if s == [] then [x]
    else if Strings.Less(Name(x), Name(s[0])) then [x] + s
    else [s[0]] + InsertByName(s[1..], x)
  }

  /** The stable sort by name: each entry is inserted, in list order, behind the entries
      already placed with a name that does not sort after its own. */
  function SortByName(s: seq<OutputData>): seq<OutputData>
    decreases |s|
  {
    if s == [] then [] else InsertByName(SortByName(s[..|s| - 1]), s[|s| - 1])
  }

  lemma {:induction false} WithNameAppend(a: seq<OutputData>, b: seq<OutputData>, name: string)
    ensures WithName(a + b, name) == WithName(a, name) + WithName(b, name)
    decreases |a|
  {
    if a == [] {
      assert a + b == b;
    } else {
      var head := if Name(a[0]) == name then [a[0]] else [];
      assert (a + b)[0] == a[0];
      assert (a + b)[1..] == a[1..] + b;
      assert WithName(a + b, name) == head + WithName(a[1..] + b, name);
      WithNameAppend(a[1..], b, name);
      assert WithName(a, name) == head + WithName(a[1..], name);
    }
  }

  lemma {:induction false} WithNameNone(s: seq<OutputData>, name: string)
    requires forall j :: 0 <= j < |s| ==> Name(s[j]) != name
    ensures WithName(s, name) == []
    decreases |s|
  {
    if s != [] {
      WithNameNone(s[1..], name);
    }
  }

  lemma {:induction false} InsertByNameElements(s: seq<OutputData>, x: OutputData)
    ensures multiset(InsertByName(s, x)) == multiset(s) + multiset{x}
    decreases |s|
  {
    if s != [] && !Strings.Less(Name(x), Name(s[0])) {
      InsertByNameElements(s[1..], x);
      assert s == [s[0]] + s[1..];
    }
  }

  lemma {:induction false} InsertByNameSorted(s: seq<OutputData>, x: OutputData)
    requires SortedByName(s)
    ensures SortedByName(InsertByName(s, x))
    decreases |s|
  {
    if s == [] {
    } else if Strings.Less(Name(x), Name(s[0])) {
      var r := [x] + s;
      forall j | 0 < j < |r|
        ensures !Strings.Less(Name(r[j]), Name(x))
      {
        assert r[j] == s[j - 1];
        Strings.LessTotal(Name(x), Name(s[0]));
        if j > 1 {
          assert !Strings.Less(Name(s[j - 1]), Name(s[0]));
          Strings.LessTotal(Name(s[j - 1]), Name(s[0]));
          if Strings.Less(Name(s[j - 1]), Name(x)) {
            Strings.LessTransitive(Name(s[j - 1]), Name(x), Name(s[0]));
          }
        } else {
          Strings.LessTotal(Name(x), Name(s[0]));
        }
      }
      assert forall i, j :: 0 < i < j < |r| ==> r[i] == s[i - 1] && r[j] == s[j - 1];
    } else {
      InsertByNameSorted(s[1..], x);
      var t := InsertByName(s[1..], x);
      InsertByNameElements(s[1..], x);
      forall j | 0 <= j < |t|
        ensures !Strings.Less(Name(t[j]), Name(s[0]))
      {
        assert t[j] in multiset(t);
        if t[j] != x {
          assert t[j] in multiset(s[1..]);
          var k :| 0 <= k < |s[1..]| && s[1..][k] == t[j];
          assert s[k + 1] == t[j];
        }
      }
      var r := [s[0]] + t;
      assert forall j :: 0 < j < |r| ==> r[j] == t[j - 1];
    }
  }

  /** Inserting into a sorted list puts the new entry behind every entry of the same name. */
  lemma {:induction false} WithNameInsert(s: seq<OutputData>, x: OutputData, name: string)
    requires SortedByName(s)
    ensures WithName(InsertByName(s, x), name) == WithName(s, name) + (if Name(x) == name then [x] else [])
    decreases |s|
  {
    var extra := if Name(x) == name then [x] else [];
    if s == [] {
    } else if Strings.Less(Name(x), Name(s[0])) {
      var r := [x] + s;
      assert r[0] == x && r[1..] == s;
      assert WithName(r, name) == extra + WithName(s, name);
      if Name(x) == name {
        AllAtLeast(s, name);
      }
    } else {
      var head := if Name(s[0]) == name then [s[0]] else [];
      var t := InsertByName(s[1..], x);
      SortedTail(s);
      WithNameInsert(s[1..], x, name);
      assert WithName(t, name) == WithName(s[1..], name) + extra;
      var r := [s[0]] + t;
      assert r[0] == s[0] && r[1..] == t;
      assert WithName(r, name) == head + WithName(t, name);
      assert WithName(s, name) == head + WithName(s[1..], name);
    }
  }

  lemma SortedTail(s: seq<OutputData>)
    requires SortedByName(s) && s != []
    ensures SortedByName(s[1..])
  {
    forall i, j | 0 <= i < j < |s| - 1
      ensures !Strings.Less(Name(s[1..][j]), Name(s[1..][i]))
    {
      assert s[1..][j] == s[j + 1] && s[1..][i] == s[i + 1];
    }
  }

  /** The first name of a sorted list is the least. */
  lemma SortedHeadLeast(s: seq<OutputData>, j: nat)
    requires SortedByName(s) && j < |s|
    ensures Name(s[0]) == Name(s[j]) || Strings.Less(Name(s[0]), Name(s[j]))
  {
    Strings.LessTotal(Name(s[0]), Name(s[j]));
  }

  lemma LessThenAtMost(a: string, b: string, c: string)
    requires Strings.Less(a, b) && (b == c || Strings.Less(b, c))
    ensures Strings.Less(a, c)
  {
    if b != c {
      Strings.LessTransitive(a, b, c);
    }
  }

  /** An element of an insertion is the inserted one or comes from the list. */
  lemma InsertedFrom(s: seq<OutputData>, x: OutputData, y: OutputData)
    requires y in InsertByName(s, x)
    ensures y == x || y in s
  {
    InsertByNameElements(s, x);
    assert y in multiset(InsertByName(s, x));
  }

  /** The sort is a permutation. */
  lemma {:induction false} SortByNamePermutation(s: seq<OutputData>)
    ensures multiset(SortByName(s)) == multiset(s)
    decreases |s|
  {
    if s != [] {
      SortByNamePermutation(s[..|s| - 1]);
      InsertByNameElements(SortByName(s[..|s| - 1]), s[|s| - 1]);
      assert s == s[..|s| - 1] + [s[|s| - 1]];
    }
  }

  /** The sort orders by name. */
  lemma {:induction false} SortByNameSorted(s: seq<OutputData>)
    ensures SortedByName(SortByName(s))
    decreases |s|
  {
    if s != [] {
      SortByNameSorted(s[..|s| - 1]);
      InsertByNameSorted(SortByName(s[..|s| - 1]), s[|s| - 1]);
    }
  }

  /** The sort is stable: the entries of each name keep their relative order. */
  lemma {:induction false} SortByNameStable(s: seq<OutputData>, name: string)
    ensures WithName(SortByName(s), name) == WithName(s, name)
    decreases |s|
  {
    if s != [] {
      var front := s[..|s| - 1];
      SortByNameStable(front, name);
      SortByNameSorted(front);
      WithNameInsert(SortByName(front), s[|s| - 1], name);
      assert s == front + [s[|s| - 1]];
      WithNameAppend(front, [s[|s| - 1]], name);
    }
  }

  /** Two lists sorted by name that hold the same entries of every name in the same order
      are equal: the stable sort has exactly one possible result. */
  lemma {:induction false} StableSortUnique(t: seq<OutputData>, u: seq<OutputData>)
    requires SortedByName(t) && SortedByName(u)
    requires forall name :: WithName(t, name) == WithName(u, name)
    ensures t == u
    decreases |t|
  {
    if t == [] || u == [] {
      WithNameHead(t);
      WithNameHead(u);
    } else {
      HeadsAgree(t, u);
      TailsAgree(t, u);
      SortedTail(t);
      SortedTail(u);
      StableSortUnique(t[1..], u[1..]);
      assert t == [t[0]] + t[1..] && u == [u[0]] + u[1..];
    }
  }

  /** Two lists with the same entries of every name and heads of the same name have the same
      head, and then their tails have the same entries of every name. */
  lemma TailsAgree(t: seq<OutputData>, u: seq<OutputData>)
    requires t != [] && u != [] && Name(t[0]) == Name(u[0])
    requires forall name :: WithName(t, name) == WithName(u, name)
    ensures t[0] == u[0]
    ensures forall name :: WithName(t[1..], name) == WithName(u[1..], name)
  {
    var a := Name(t[0]);
    assert WithName(t, a) == [t[0]] + WithName(t[1..], a);
    assert WithName(u, a) == [u[0]] + WithName(u[1..], a);
    assert WithName(t, a)[0] == t[0] && WithName(u, a)[0] == u[0];
    forall name
      ensures WithName(t[1..], name) == WithName(u[1..], name)
    {
      if name == a {
        assert WithName(t[1..], name) == WithName(t, name)[1..];
        assert WithName(u[1..], name) == WithName(u, name)[1..];
      } else {
        assert WithName(t[1..], name) == WithName(t, name);
        assert WithName(u[1..], name) == WithName(u, name);
      }
    }
  }

  /** A non-empty list holds an entry with the name of its first entry. */
  lemma WithNameHead(s: seq<OutputData>)
    ensures s != [] ==> WithName(s, Name(s[0])) != []
  {
    if s != [] {
      assert WithName(s, Name(s[0]))[0] == s[0];
    }
  }

  /** In a list sorted by name whose first name comes after `name`, no entry has `name`. */
  lemma AllAtLeast(s: seq<OutputData>, name: string)
    requires SortedByName(s) && s != [] && Strings.Less(name, Name(s[0]))
    ensures WithName(s, name) == []
  {
    forall j | 0 <= j < |s|
      ensures Name(s[j]) != name
    {
      SortedHeadLeast(s, j);
      LessThenAtMost(name, Name(s[0]), Name(s[j]));
      Strings.LessTotal(name, name);
    }
    WithNameNone(s, name);
  }

  /** Two sorted lists with the same entries of every name start with the same name. */
  lemma HeadsAgree(t: seq<OutputData>, u: seq<OutputData>)
    requires SortedByName(t) && SortedByName(u) && t != [] && u != []
    requires forall name :: WithName(t, name) == WithName(u, name)
    ensures Name(t[0]) == Name(u[0])
  {
    var a, b := Name(t[0]), Name(u[0]);
    assert WithName(t, a) != [] && WithName(u, b) != [];
    Strings.LessTotal(a, b);
    if Strings.Less(a, b) {
      AllAtLeast(u, a);
    } else if Strings.Less(b, a) {
      AllAtLeast(t, b);
    }
  }

  /** Any reordering that is sorted by name and keeps the order within each name is the
      result of the sort. */
  lemma StableSortCharacterized(s: seq<OutputData>, t: seq<OutputData>)
    requires SortedByName(t) && forall name :: WithName(t, name) == WithName(s, name)
    ensures t == SortByName(s)
  {
    SortByNameSorted(s);
    forall name ensures WithName(t, name) == WithName(SortByName(s), name) {
      SortByNameStable(s, name);
    }
    StableSortUnique(t, SortByName(s));
  }

  /** A list already sorted by name is left as it is. */
  lemma {:induction false} SortSortedIdentity(s: seq<OutputData>)
    requires SortedByName(s)
    ensures SortByName(s) == s
  {
    forall name ensures WithName(s, name) == WithName(s, name) {
    }
    StableSortCharacterized(s, s);
  }

  /** Inserting a new name into a strictly sorted list keeps it strictly sorted. */
  lemma {:induction false} InsertByNameStrict(s: seq<OutputData>, x: OutputData)
    requires StrictlyByName(s) && forall j :: 0 <= j < |s| ==> Name(s[j]) != Name(x)
    ensures StrictlyByName(InsertByName(s, x))
    decreases |s|
  {
    if s == [] {
    } else if Strings.Less(Name(x), Name(s[0])) {
      forall j | 0 <= j < |s|
        ensures Strings.Less(Name(x), Name(s[j]))
      {
        if j > 0 {
          Strings.LessTransitive(Name(x), Name(s[0]), Name(s[j]));
        }
      }
      StrictCons(x, s);
    } else {
      StrictTail(s);
      assert forall j :: 0 <= j < |s[1..]| ==> s[1..][j] == s[j + 1];
      InsertByNameStrict(s[1..], x);
      var t := InsertByName(s[1..], x);
      Strings.LessTotal(Name(x), Name(s[0]));
      forall j | 0 <= j < |t|
        ensures Strings.Less(Name(s[0]), Name(t[j]))
      {
        InsertedFrom(s[1..], x, t[j]);
        if t[j] != x {
          var k :| 0 <= k < |s[1..]| && s[1..][k] == t[j];
          assert s[k + 1] == t[j];
        }
      }
      StrictCons(s[0], t);
    }
  }

  /** An entry whose name comes before every name of a strictly ordered list may precede it. */
  lemma StrictCons(h: OutputData, t: seq<OutputData>)
    requires StrictlyByName(t) && forall j :: 0 <= j < |t| ==> Strings.Less(Name(h), Name(t[j]))
    ensures StrictlyByName([h] + t)
  {
    var r := [h] + t;
    forall i, j | 0 <= i < j < |r|
      ensures Strings.Less(Name(r[i]), Name(r[j]))
    {
      assert r[j] == t[j - 1];
      if i > 0 {
        assert r[i] == t[i - 1];
      }
    }
  }

  lemma StrictTail(s: seq<OutputData>)
    requires StrictlyByName(s) && s != []
    ensures StrictlyByName(s[1..])
  {
    forall i, j | 0 <= i < j < |s| - 1
      ensures Strings.Less(Name(s[1..][i]), Name(s[1..][j]))
    {
      assert s[1..][j] == s[j + 1] && s[1..][i] == s[i + 1];
    }
  }

  // ---------------------------------------------------------------------------------------
  // The operations on whole lists
  // ---------------------------------------------------------------------------------------

  /** Setting the series of a data type: any entry with that name is removed, the new entry
      appended, and the list sorted. */
  function SetEntry(s: seq<OutputData>, o: OutputData): seq<OutputData> {
    SortByName(RemoveAt(s, IndexOfName(s, Name(o))) + [o])
  }

  /** Removing the entry of a data type name, if there is one. */
  function RemoveEntry(s: seq<OutputData>, name: string): seq<OutputData> {
    RemoveAt(s, IndexOfName(s, name))
  }

  lemma StrictSorted(s: seq<OutputData>)
    requires StrictlyByName(s)
    ensures SortedByName(s)
  {
    forall i, j | 0 <= i < j < |s|
      ensures !Strings.Less(Name(s[j]), Name(s[i]))
    {
      Strings.LessTotal(Name(s[i]), Name(s[j]));
    }
  }

  /** Removing an entry from a strictly sorted list keeps it strictly sorted and removes
      exactly the entries of that name. */
  lemma RemoveEntryOutcome(s: seq<OutputData>, name: string)
    requires StrictlyByName(s)
    ensures StrictlyByName(RemoveEntry(s, name))
    ensures forall x :: x in RemoveEntry(s, name) <==> x in s && Name(x) != name
    ensures |RemoveEntry(s, name)| == if exists j :: 0 <= j < |s| && Name(s[j]) == name then |s| - 1 else |s|
  {
    var i := IndexOfName(s, name);
    var r := RemoveEntry(s, name);
    if i >= 0 {
      forall a, b | 0 <= a < b < |r|
        ensures Strings.Less(Name(r[a]), Name(r[b]))
      {
        var a', b' := if a < i then a else a + 1, if b < i then b else b + 1;
        assert r[a] == s[a'] && r[b] == s[b'];
      }
      forall x ensures x in r <==> x in s && Name(x) != name {
        if x in r {
          var k :| 0 <= k < |r| && r[k] == x;
          var k' := if k < i then k else k + 1;
          assert s[k'] == x;
          if k' < i {
            Strings.LessTotal(Name(s[k']), Name(s[i]));
          } else {
            Strings.LessTotal(Name(s[i]), Name(s[k']));
          }
        }
        if x in s && Name(x) != name {
          var k :| 0 <= k < |s| && s[k] == x;
          assert k != i;
          if k < i {
            assert r[k] == x;
          } else {
            assert r[k - 1] == x;
          }
        }
      }
    }
  }

  /** Setting keeps a strictly sorted list strictly sorted; the new entry replaces the one of
      the same name, if any, and every other entry stays. */
  lemma SetEntryOutcome(s: seq<OutputData>, o: OutputData)
    requires StrictlyByName(s)
    ensures StrictlyByName(SetEntry(s, o))
    ensures forall x :: x in SetEntry(s, o) <==> x == o || (x in s && Name(x) != Name(o))
    ensures |SetEntry(s, o)| == if exists j :: 0 <= j < |s| && Name(s[j]) == Name(o) then |s| else |s| + 1
  {
    var r := RemoveEntry(s, Name(o));
    RemoveEntryOutcome(s, Name(o));
    StrictSorted(r);
    assert r + [o] == r + [o];
    assert (r + [o])[..|r + [o]| - 1] == r;
    SortSortedIdentity(r);
    assert SetEntry(s, o) == InsertByName(r, o);
    forall j | 0 <= j < |r|
      ensures Name(r[j]) != Name(o)
    {
      assert r[j] in r;
    }
    InsertByNameStrict(r, o);
    InsertByNameElements(r, o);
    var t := InsertByName(r, o);
    forall x ensures x in t <==> x == o || x in r {
      assert x in t <==> x in multiset(t);
      assert x in r <==> x in multiset(r);
    }
  }

  // ---------------------------------------------------------------------------------------
  // The router object
  // ---------------------------------------------------------------------------------------

  class DataRouter {
    var dataList: seq<OutputData>

    /** One entry per name, in ascending order of the names. */
    ghost predicate Valid()
      reads this
    {
      StrictlyByName(dataList)
    }

    constructor ()
      ensures dataList == []
      ensures Valid()
    {
      dataList := [];
    }

    /** Stores the series of a data type, replacing those stored for its name. */
    method SetData(dataType: StatisticalStore.DataType, smoothedData: Option<seq<FinalData>>,
                   predictedData: Option<seq<FinalData>>)
      modifies this
      ensures dataList == SetEntry(old(dataList), OutputData(dataType, smoothedData, predictedData))
      ensures old(Valid()) ==> Valid()
    {
      ghost var before := dataList;
      var index := FindDataByType(dataType);
      RemoveDataByIndex(index);
      AddData(dataType, smoothedData, predictedData);
      SortDataByType();
      if StrictlyByName(before) {
        SetEntryOutcome(before, OutputData(dataType, smoothedData, predictedData));
      }
    }

    /** Forgets the series of a data type. */
    method RemoveDataByType(dataType: StatisticalStore.DataType)
      modifies this
      ensures dataList == RemoveEntry(old(dataList), dataType.name)
      ensures old(Valid()) ==> Valid()
    {
      ghost var before := dataList;
      var index := FindDataByType(dataType);
      RemoveDataByIndex(index);
      if StrictlyByName(before) {
        RemoveEntryOutcome(before, dataType.name);
      }
    }

    /** The index of the first entry with the data type's name, or -1. */
    method FindDataByType(dataType: StatisticalStore.DataType) returns (index: int)
      ensures index == IndexOfName(dataList, dataType.name)
    {
      var i := 0;
      while i < |dataList|
        invariant 0 <= i <= |dataList|
        invariant forall j :: 0 <= j < i ==> Name(dataList[j]) != dataType.name
      {
        Strings.CompareZeroIffEqual(Name(dataList[i]), dataType.name);
        if Strings.Compare(Name(dataList[i]), dataType.name) == 0 {
          return i;
        }
        i := i + 1;
      }
      return -1;
    }

    /** Splices out the entry at `index`; a negative index leaves the list alone. */
    method RemoveDataByIndex(index: int)
      requires index < |dataList|
      modifies this
      ensures dataList == RemoveAt(old(dataList), index)
    {
      if index >= 0 {
        dataList := dataList[..index] + dataList[index + 1..];
      }
    }

    /** Appends one entry. */
    method AddData(dataType: StatisticalStore.DataType, smoothedData: Option<seq<FinalData>>,
                   predictedData: Option<seq<FinalData>>)
      modifies this
      ensures dataList == old(dataList) + [OutputData(dataType, smoothedData, predictedData)]
    {
      dataList := dataList + [OutputData(dataType, smoothedData, predictedData)];
    }

    /** Sorts the list by name, stably. */
    method SortDataByType()
      modifies this
      ensures dataList == SortByName(old(dataList))
    {
      var sorted := [];
      var i := 0;
      while i < |dataList|
        invariant 0 <= i <= |dataList|
        invariant sorted == SortByName(dataList[..i])
      {
        assert dataList[..i + 1][..i] == dataList[..i];
        sorted := InsertByName(sorted, dataList[i]);
        i := i + 1;
      }
      assert dataList[..i] == dataList;
      dataList := sorted;
    }
  }

  /** The first entry set into an empty router is its whole list. */
  lemma SetEntryEmpty(o: OutputData)
    ensures SetEntry([], o) == [o]
  {
    assert IndexOfName([], Name(o)) == -1;
    assert RemoveAt([], -1) + [o] == [o];
    assert [o][..0] == [];
    assert SortByName([o]) == InsertByName(SortByName([]), o);
  }

  /** Setting an entry whose name is new and comes before the one entry present. */
  lemma SetEntryBefore(o1: OutputData, o2: OutputData)
    requires Strings.Less(Name(o2), Name(o1))
    ensures SetEntry([o1], o2) == [o2, o1]
  {
    Strings.LessTotal(Name(o2), Name(o2));
    assert IndexOfName([o1], Name(o2)) == -1;
    assert RemoveAt([o1], -1) + [o2] == [o1, o2];
    assert [o1, o2][..1] == [o1];
    SetEntryEmpty(o1);
    assert SortByName([o1]) == [o1];
    assert SortByName([o1, o2]) == InsertByName(SortByName([o1]), o2);
    assert InsertByName([o1], o2) == [o2] + [o1];
  }

  /** Setting an entry with the name of the second of two entries replaces it. */
  lemma SetEntryReplaceSecond(o1: OutputData, o2: OutputData, o3: OutputData)
    requires Strings.Less(Name(o1), Name(o2)) && Name(o3) == Name(o2)
    ensures SetEntry([o1, o2], o3) == [o1, o3]
  {
    Strings.LessTotal(Name(o1), Name(o2));
    assert IndexOfName([o1, o2], Name(o3)) == 1;
    assert RemoveAt([o1, o2], 1) == [o1];
    assert [o1] + [o3] == [o1, o3];
    assert [o1, o3][..1] == [o1];
    SetEntryEmpty(o1);
    assert SortByName([o1]) == [o1];
    assert SortByName([o1, o3]) == InsertByName(SortByName([o1]), o3);
    assert [o1][1..] == [];
    assert InsertByName([o1], o3) == [o1] + InsertByName([], o3);
  }

  /** The router scenario: "DataType 03", then "DataType 01", then "DataType 03" again with
      both series leaves two entries, "DataType 01" first, the second carrying the series. */
  lemma SetDataScenario()
    ensures var t01 := StatisticalStore.DataType(1, "DataType 03", true, 10, 5, 45);
            var t02 := StatisticalStore.DataType(2, "DataType 01", false, 11, 6, 46);
            var t03 := StatisticalStore.DataType(1, "DataType 03", false, 11, 6, 46);
            var series := Some([FinalData(10, 0), FinalData(15, 0)]);
            var s := SetEntry(SetEntry(SetEntry([], OutputData(t01, None, None)), OutputData(t02, None, None)),
                              OutputData(t03, series, series));
            s == [OutputData(t02, None, None), OutputData(t03, series, series)]
  {
    var t01 := StatisticalStore.DataType(1, "DataType 03", true, 10, 5, 45);
    var t02 := StatisticalStore.DataType(2, "DataType 01", false, 11, 6, 46);
    var t03 := StatisticalStore.DataType(1, "DataType 03", false, 11, 6, 46);
    var series := Some([FinalData(10, 0), FinalData(15, 0)]);
    var o1, o2, o3 := OutputData(t01, None, None), OutputData(t02, None, None), OutputData(t03, series, series);
    assert Strings.FirstDifference("DataType 01", "DataType 03", 10);
    Strings.FirstDifferenceLess("DataType 01", "DataType 03", 10);
    SetEntryEmpty(o1);
    SetEntryBefore(o1, o2);
    SetEntryReplaceSecond(o2, o1, o3);
  }
}
