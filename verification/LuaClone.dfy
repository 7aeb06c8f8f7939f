/**
 The deep copy of a Lua value: tables are copied once each, through a lookup table that also breaks
 cycles, and copies share their originals' metatables.

 Keys may be tables.  `pairs` visits the entries in any order.
 */
module LuaClone {
  type Entries = map<Value, Value>

  class Table {
    var entries: Entries
    var meta: Table?

    constructor ()
      ensures entries == map[] && meta == null
    {
      entries, meta := map[], null;
    }
  }

  /** A value that is not a table is copied as it is. */
  datatype Value = Scalar(code: int) | Ref(table: Table)

  ghost predicate Within(v: Value, U: set<Table>) {
    v.Ref? ==> v.table in U
  }

  /** Which table was copied to which. */
  type Lookup = map<Table, Table>

  /** Every table that occurs in an entry of a table of `U` is in `U`. */
  ghost predicate Closed(U: set<Table>)
    reads U
  {
    forall t, k :: t in U && k in t.entries ==> Within(k, U) && Within(t.entries[k], U)
  }

  /** What a value becomes under a lookup table. */
  ghost function Image(v: Value, L: Lookup): Value
    requires Within(v, L.Keys)
  {
    match v
    case Scalar(_) => v
    case Ref(t) => Ref(L[t])
  }

  /** Distinct tables have distinct copies. */
  ghost predicate Injective(L: Lookup) {
    forall t, u :: t in L && u in L && t != u ==> L[t] != L[u]
  }

  /** No copy is itself a source table. */
  ghost predicate Outside(L: Lookup, U: set<Table>) {
    L.Keys <= U && forall t :: t in L ==> L[t] !in U
  }

  /** Every entry of `keys` has its copy in `copy`. */
  ghost predicate HasImages(source: Entries, keys: set<Value>, copy: Entries, L: Lookup) {
    && keys <= source.Keys
    && forall k :: k in keys ==>
         && Within(k, L.Keys) && Within(source[k], L.Keys)
         && Image(k, L) in copy && copy[Image(k, L)] == Image(source[k], L)
  }

  /** Every key of `copy` is the image of one of `keys`. */
  ghost predicate OnlyImages(keys: set<Value>, copy: Entries, L: Lookup) {
    forall q :: q in copy ==> exists k :: k in keys && Within(k, L.Keys) && q == Image(k, L)
  }

  /** The entries of `keys`, copied under `L`, are exactly the entries `copy` has. */
  ghost predicate Copied(source: Entries, keys: set<Value>, copy: Entries, L: Lookup) {
    HasImages(source, keys, copy, L) && OnlyImages(keys, copy, L)
  }

  /** The copy of `t` is finished. */
  ghost predicate Complete(t: Table, L: Lookup)
    reads t, if t in L then {L[t]} else {}
  {
    t in L && Copied(t.entries, t.entries.Keys, L[t].entries, L) && L[t].meta == t.meta
  }

  /** One lookup table extends another. */
  ghost predicate Extends(L: Lookup, M: Lookup) {
    forall t :: t in L ==> t in M && M[t] == L[t]
  }

  lemma ImageExtends(v: Value, L: Lookup, M: Lookup)
    requires Within(v, L.Keys) && Extends(L, M)
    ensures Within(v, M.Keys) && Image(v, M) == Image(v, L)
  {
  }

  lemma ImageInjective(v: Value, w: Value, L: Lookup)
    requires Injective(L) && Within(v, L.Keys) && Within(w, L.Keys)
    ensures Image(v, L) == Image(w, L) ==> v == w
  {
  }

  lemma CopiedNothing(source: Entries, L: Lookup)
    ensures Copied(source, {}, map[], L)
  {
  }

  lemma HasExtends(source: Entries, keys: set<Value>, copy: Entries, L: Lookup, M: Lookup)
    requires HasImages(source, keys, copy, L) && Extends(L, M)
    ensures HasImages(source, keys, copy, M)
  {
    forall k | k in keys
      ensures Within(k, M.Keys) && Within(source[k], M.Keys)
      ensures Image(k, M) in copy && copy[Image(k, M)] == Image(source[k], M)
    {
      ImageExtends(k, L, M);
      ImageExtends(source[k], L, M);
    }
  }

  lemma OnlyExtends(keys: set<Value>, copy: Entries, L: Lookup, M: Lookup)
    requires OnlyImages(keys, copy, L) && Extends(L, M)
    ensures OnlyImages(keys, copy, M)
  {
    forall q | q in copy ensures exists k :: k in keys && Within(k, M.Keys) && q == Image(k, M) {
      var k :| k in keys && Within(k, L.Keys) && q == Image(k, L);
      ImageExtends(k, L, M);
    }
  }

  lemma CopiedExtends(source: Entries, keys: set<Value>, copy: Entries, L: Lookup, M: Lookup)
    requires Copied(source, keys, copy, L) && Extends(L, M)
    ensures Copied(source, keys, copy, M)
  {
    HasExtends(source, keys, copy, L, M);
    OnlyExtends(keys, copy, L, M);
  }

  /** One more entry: its key's image is new because distinct keys have distinct images. */
  lemma CopiedGrows(source: Entries, keys: set<Value>, copy: Entries, L: Lookup, k: Value)
    requires Copied(source, keys, copy, L) && Injective(L)
    requires k in source && k !in keys && Within(k, L.Keys) && Within(source[k], L.Keys)
    ensures Copied(source, keys + {k}, copy[Image(k, L) := Image(source[k], L)], L)
  {
    var copy', keys' := copy[Image(k, L) := Image(source[k], L)], keys + {k};
    forall j | j in keys' ensures Image(j, L) in copy' && copy'[Image(j, L)] == Image(source[j], L) {
      if j != k {
        ImageInjective(j, k, L);
      }
    }
    forall q | q in copy' ensures exists j :: j in keys' && Within(j, L.Keys) && q == Image(j, L) {
      if q == Image(k, L) {
        assert k in keys';
      } else {
        var j :| j in keys && Within(j, L.Keys) && q == Image(j, L);
        assert j in keys';
      }
    }
  }

  lemma CompleteExtends(t: Table, L: Lookup, M: Lookup)
    requires Complete(t, L) && Extends(L, M)
    ensures Complete(t, M)
  {
    CopiedExtends(t.entries, t.entries.Keys, L[t].entries, L, M);
  }

  lemma ExtendsOn(L: Lookup, M: Lookup, N: Lookup)
    requires Extends(L, M) && Extends(M, N)
    ensures Extends(L, N)
    ensures forall t :: t in M ==> t in N && N[t] == M[t]
    ensures forall t :: t in L ==> t in N && N[t] == L[t]
  {
  }

  /** The table being filled is neither a source table nor the copy of another one. */
  lemma CopiesApart(L: Lookup, U: set<Table>, source: Table, t: Table)
    requires Injective(L) && Outside(L, U) && source in L && t in L && t != source
    ensures L[t] != L[source] && t != L[source]
  {
  }

  lemma CopyOutside(L: Lookup, U: set<Table>, source: Table)
    requires Outside(L, U) && source in L
    ensures L[source] !in U && source in U && Extends(L, L)
  {
  }

  lemma FewerLeft(L: Lookup, M: Lookup, U: set<Table>)
    requires Extends(L, M)
    ensures U - M.Keys <= U - L.Keys
  {
  }

  lemma EntryWithin(U: set<Table>, source: Table, key: Value)
    requires Closed(U) && source in U && key in source.entries
    ensures Within(key, U) && Within(source.entries[key], U)
  {
  }

  /** Extending the lookup table twice, and adding the entry whose key and value have been copied. */
  lemma EntryCopied(source: Entries, done: set<Value>, copy: Entries, key: Value,
                    L: Lookup, M: Lookup, N: Lookup)
    requires Copied(source, done, copy, L) && Extends(L, M) && Extends(M, N) && Injective(N)
    requires key in source && key !in done && Within(key, M.Keys) && Within(source[key], N.Keys)
    ensures Extends(L, N) && Within(key, N.Keys)
    ensures Copied(source, done + {key}, copy[Image(key, M) := Image(source[key], N)], N)
  {
    ExtendsOn(L, M, N);
    CopiedExtends(source, done, copy, L, N);
    ImageExtends(key, M, N);
    CopiedGrows(source, done, copy, N, key);
  }

  class Cloner {
    /** `lookup_table`. */
    var lookup: Lookup

    constructor ()
      ensures lookup == map[]
    {
      lookup := map[];
    }

    /** `_copy`.  Everything it newly copies is finished when it returns, except that copies already in
        `lookup` are left alone; no existing table is changed. */
    method Copy(value: Value, ghost U: set<Table>) returns (r: Value)
      requires Closed(U) && Within(value, U)
      requires Injective(lookup) && Outside(lookup, U)
      modifies this
      ensures Extends(old(lookup), lookup) && Injective(lookup) && Outside(lookup, U)
      ensures Within(value, lookup.Keys) && r == Image(value, lookup)
      ensures forall t :: t in lookup && t !in old(lookup) ==> fresh(lookup[t]) && Complete(t, lookup)
      decreases U - lookup.Keys, 1
    {
      if value.Scalar? {
        return value;
      } else if value.table in lookup {
        return Ref(lookup[value.table]);
      }
      r := CopyTable(value.table, U);
    }

    /** The part of `_copy` that makes a new table. */
    method CopyTable(source: Table, ghost U: set<Table>) returns (r: Value)
      requires Closed(U) && source in U && source !in lookup
      requires Injective(lookup) && Outside(lookup, U)
      modifies this
      ensures Extends(old(lookup), lookup) && Injective(lookup) && Outside(lookup, U)
      ensures source in lookup && r == Ref(lookup[source])
      ensures forall t :: t in lookup && t !in old(lookup) ==> fresh(lookup[t]) && Complete(t, lookup)
      decreases U - lookup.Keys, 0
    {
      var newTable := new Table();
      ghost var before := lookup;
      lookup := lookup[source := newTable];
      assert source in U - before.Keys && source !in U - lookup.Keys;
      CopyEntries(source, newTable, U);
      newTable.meta := source.meta;
      r := Ref(newTable);
    }

    /** The loop over `pairs`, in any order. */
    method CopyEntries(source: Table, newTable: Table, ghost U: set<Table>)
      requires Closed(U) && source in U
      requires source in lookup && lookup[source] == newTable
      requires Injective(lookup) && Outside(lookup, U)
      requires newTable.entries == map[]
      modifies this, newTable
      ensures Extends(old(lookup), lookup) && Injective(lookup) && Outside(lookup, U)
      ensures newTable.meta == old(newTable.meta)
      ensures Copied(source.entries, source.entries.Keys, newTable.entries, lookup)
      ensures forall t :: t in lookup && t !in old(lookup) ==> fresh(lookup[t]) && Complete(t, lookup)
      decreases U - lookup.Keys, 3
    {
      hide Copied, Closed, Injective, Outside, Complete, Within, Extends;
      ghost var known := lookup;
      var remaining := source.entries.Keys;
      assert source.entries.Keys - remaining == {};
      CopiedNothing(source.entries, lookup);
      CopyOutside(lookup, U, source);
      while remaining != {}
        invariant remaining <= source.entries.Keys && Closed(U)
        invariant Extends(known, lookup) && Injective(lookup) && Outside(lookup, U)
        invariant newTable.meta == old(newTable.meta)
        invariant Copied(source.entries, source.entries.Keys - remaining, newTable.entries, lookup)
        invariant forall t :: t in lookup && t !in known ==> fresh(lookup[t]) && Complete(t, lookup)
        decreases |remaining|
      {
        var key :| key in remaining;
        ghost var done := source.entries.Keys - remaining;
        ghost var mid := lookup;
        FewerLeft(known, mid, U);
        CopyEntry(source, newTable, key, done, known, U);
        ExtendsOn(known, mid, lookup);
        remaining := remaining - {key};
        assert source.entries.Keys - remaining == done + {key};
      }
      assert source.entries.Keys - remaining == source.entries.Keys;
    }

    /** `new_table[_copy(key)] = _copy(value)` for one entry. */
    method CopyEntry(source: Table, newTable: Table, key: Value,
                     ghost done: set<Value>, ghost known: Lookup, ghost U: set<Table>)
      requires Closed(U) && source in U && key in source.entries && key !in done
      requires source in known && known[source] == newTable && Extends(known, lookup)
      requires Injective(lookup) && Outside(lookup, U)
      requires Copied(source.entries, done, newTable.entries, lookup)
      requires forall t :: t in lookup && t !in known ==> Complete(t, lookup)
      modifies this, newTable
      ensures Extends(old(lookup), lookup) && Injective(lookup) && Outside(lookup, U)
      ensures newTable.meta == old(newTable.meta)
      ensures Copied(source.entries, done + {key}, newTable.entries, lookup)
      ensures forall t :: t in lookup && t !in known ==>
                (t !in old(lookup) ==> fresh(lookup[t])) && Complete(t, lookup)
      decreases U - lookup.Keys, 2
    {
      hide Copied, Closed, Injective, Outside, Complete, Within, Extends, Image;
      ghost var L0 := lookup;
      EntryWithin(U, source, key);
      ExtendsOn(known, L0, L0);
      var newKey := Copy(key, U);
      ghost var L1 := lookup;
      ExtendsOn(known, L0, L1);
      var newValue := Copy(source.entries[key], U);
      ExtendsOn(known, L1, lookup);
      ExtendsOn(L0, L1, lookup);
      EntryCopied(source.entries, done, newTable.entries, key, L0, L1, lookup);
      forall t | t in lookup && t !in known
        ensures lookup[t] != newTable && t != newTable && (t !in L0 ==> fresh(lookup[t])) && Complete(t, lookup)
      {
        CopiesApart(lookup, U, source, t);
        if t in L0 {
          CompleteExtends(t, L0, lookup);
        } else if t in L1 {
          CompleteExtends(t, L1, lookup);
        }
      }
      newTable.entries := newTable.entries[newKey := newValue];
    }
  }

  /** The copy made from `value`: an isomorphism `L` from the tables it covers onto fresh tables. */
  ghost predicate IsClone(value: Value, r: Value, L: Lookup)
    reads L.Keys, L.Values
  {
    && Injective(L) && Within(value, L.Keys) && r == Image(value, L)
    && forall t :: t in L ==> Complete(t, L)
  }

  /** One value and its copy: a value that is not a table stays as it is, a table becomes its own copy. */
  ghost predicate CopyOf(v: Value, w: Value, L: Lookup) {
    && (v.Scalar? ==> w == v)
    && (v.Ref? ==> v.table in L && w == Ref(L[v.table]))
  }

  /** The entries and the metatable of a copied table, key by key, and that there are no other entries. */
  ghost predicate TableCopied(t: Table, L: Lookup)
    requires t in L
    reads t, L[t]
  {
    var source, copy := t.entries, L[t].entries;
    && L[t].meta == t.meta
    && (forall k :: k in source && k.Scalar? ==>
          && k in copy
          && (source[k].Scalar? ==> copy[k] == source[k])
          && (source[k].Ref? ==> source[k].table in L && copy[k] == Ref(L[source[k].table])))
    && (forall k :: k in source && k.Ref? ==>
          k.table in L && Ref(L[k.table]) in copy && CopyOf(source[k], copy[Ref(L[k.table])], L))
    && (forall k :: k in copy && k.Scalar? ==> k in source)
    && (forall k :: k in copy && k.Ref? ==> exists t :: t in L && Ref(t) in source && L[t] == k.table)
  }

  lemma ImageIsCopy(v: Value, L: Lookup)
    requires Within(v, L.Keys)
    ensures CopyOf(v, Image(v, L), L)
  {
  }

  lemma CompleteCopies(t: Table, L: Lookup)
    requires Complete(t, L)
    ensures TableCopied(t, L)
  {
    var source, copy := t.entries, L[t].entries;
    forall k | k in source
      ensures Within(k, L.Keys) && Image(k, L) in copy && CopyOf(source[k], copy[Image(k, L)], L)
      ensures CopyOf(k, Image(k, L), L)
    {
      ImageIsCopy(k, L);
      ImageIsCopy(source[k], L);
    }
    forall q | q in copy
      ensures q.Scalar? ==> q in source
      ensures q.Ref? ==> exists u :: u in L && Ref(u) in source && L[u] == q.table
    {
      var k :| k in source && Within(k, L.Keys) && q == Image(k, L);
      ImageIsCopy(k, L);
      if k.Ref? {
        assert k == Ref(k.table) && k.table in L;
      }
    }
  }

  /** `clone`.  It terminates on every finite graph of tables, cyclic or not; a value that is not a table
      comes back as it is, a table as a fresh one whose entries and metatable are those of the original,
      with every table that occurs in them replaced by its own fresh copy; no existing table changes. */
  method Clone(value: Value, ghost U: set<Table>) returns (r: Value, ghost L: Lookup)
    requires Closed(U) && Within(value, U)
    ensures value.Scalar? ==> r == value
    ensures value.Ref? ==> value.table in L && r == Ref(L[value.table])
    ensures forall t :: t in L ==> t in U && fresh(L[t]) && TableCopied(t, L)
    ensures forall t, u :: t in L && u in L && t != u ==> L[t] != L[u]
    ensures IsClone(value, r, L)
  {
    var cloner := new Cloner();
    r := cloner.Copy(value, U);
    L := cloner.lookup;
    ImageIsCopy(value, L);
    forall t | t in L ensures TableCopied(t, L) {
      CompleteCopies(t, L);
    }
  }

  datatype Option<T> = None | Some(value: T)

  /** The value reached from `v` by indexing with `path`, key after key. */
  ghost function Walk(v: Value, path: seq<Value>, U: set<Table>): Option<Value>
    reads U
    decreases |path|
  {
    if path == [] then Some(v)
    else if v.Ref? && v.table in U && path[0] in v.table.entries then Walk(v.table.entries[path[0]], path[1..], U)
    else None
  }

  ghost function ImagePath(path: seq<Value>, L: Lookup): seq<Value>
    requires forall k :: k in path ==> Within(k, L.Keys)
  {
    seq(|path|, i requires 0 <= i < |path| => Image(path[i], L))
  }

  lemma ImagePathTail(path: seq<Value>, L: Lookup)
    requires path != [] && forall k :: k in path ==> Within(k, L.Keys)
    ensures |ImagePath(path, L)| == |path|
    ensures ImagePath(path, L)[0] == Image(path[0], L) && ImagePath(path, L)[1..] == ImagePath(path[1..], L)
  {
  }

  /** Original and clone cannot be told apart by indexing: a path leads to a value in one exactly when its
      image leads to the image of that value in the other.  So cycles, sharing and distinctness of keys
      carry over. */
  lemma {:induction false} WalksAgree(v: Value, path: seq<Value>, L: Lookup)
    requires Injective(L) && Within(v, L.Keys) && forall t :: t in L ==> Complete(t, L)
    requires forall k :: k in path ==> Within(k, L.Keys)
    ensures var x, y := Walk(v, path, L.Keys), Walk(Image(v, L), ImagePath(path, L), L.Values);
            (x.None? && y.None?) || (x.Some? && Within(x.value, L.Keys) && y == Some(Image(x.value, L)))
    decreases |path|
  {
    if path == [] || !v.Ref? {
    } else {
      var t, k := v.table, path[0];
      ImagePathTail(path, L);
      assert Complete(t, L) && L[t] in L.Values;
      if k in t.entries {
        WalksAgree(t.entries[k], path[1..], L);
      } else if Image(k, L) in L[t].entries {
        var j :| j in t.entries.Keys && Within(j, L.Keys) && Image(k, L) == Image(j, L);
        ImageInjective(k, j, L);
      }
    }
  }

  /** Two paths meet in the original exactly when their images meet in the clone. */
  lemma SharingPreserved(v: Value, p: seq<Value>, q: seq<Value>, L: Lookup)
    requires Injective(L) && Within(v, L.Keys) && forall t :: t in L ==> Complete(t, L)
    requires forall k :: k in p || k in q ==> Within(k, L.Keys)
    requires Walk(v, p, L.Keys).Some? && Walk(v, q, L.Keys).Some?
    ensures Walk(v, p, L.Keys) == Walk(v, q, L.Keys)
       <==> Walk(Image(v, L), ImagePath(p, L), L.Values) == Walk(Image(v, L), ImagePath(q, L), L.Values)
  {
    WalksAgree(v, p, L);
    WalksAgree(v, q, L);
    ImageInjective(Walk(v, p, L.Keys).value, Walk(v, q, L.Keys).value, L);
  }

  lemma {:induction false} ScalarImage(path: seq<Value>, L: Lookup)
    requires forall k :: k in path ==> k.Scalar?
    ensures (forall k :: k in path ==> Within(k, L.Keys)) && ImagePath(path, L) == path
  {
    forall k | k in path ensures Within(k, L.Keys) && Image(k, L) == k {
      ImageIsCopy(k, L);
    }
  }

  /** A path of keys that are not tables leads to the value `c` in the original if and only if the same path
      leads to `c` in the clone. */
  lemma ScalarsAgree(value: Value, r: Value, L: Lookup, path: seq<Value>, c: int)
    requires IsClone(value, r, L) && forall k :: k in path ==> k.Scalar?
    ensures Walk(value, path, L.Keys) == Some(Scalar(c)) <==> Walk(r, path, L.Values) == Some(Scalar(c))
  {
    hide Walk, Image, Complete, ImagePath;
    ScalarImage(path, L);
    WalksAgree(value, path, L);
    var x := Walk(value, path, L.Keys);
    if x.Some? {
      ImageIsCopy(x.value, L);
    }
  }
}
