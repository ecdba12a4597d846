/** Importing a table whose rows are matched by id: schedules, quick actions and scenes alike. */
module Tables {
  import opened Prelude
  import opened Stores
  import opened Envelopes

  /** An envelope item, already translated: its id, the error it raises before any row is touched,
      and the content to store or the error raised while building it. */
  datatype Entry<V> = Entry(id: Option<Id>, early: Option<Error>, view: Result<V, Error>)

  /** The rows written so far and the two counters. */
  datatype Load<V> = Load(rows: map<Id, Owned<V>>, created: nat, updated: nat)

  ghost predicate Found<V(!new)>(table: map<Id, Owned<V>>, mode: Mode, id: Option<Id>) {
    mode.Merge? && Truthy(id) && id.value in table
  }

  /** The row that an item with this id goes to, when nothing collides. */
  function SlotOf(id: Option<Id>, drawn: Id): Id {
    if Truthy(id) then id.value else drawn
  }

  function Slot<V>(e: Entry<V>, drawn: Id): Id {
    SlotOf(e.id, drawn)
  }

  ghost function LoadOne<V(!new)>(base: map<Id, Owned<V>>, mode: Mode, user: Id, drawn: Id, l: Load<V>, e: Entry<V>):
      Result<Load<V>, Error>
  {
    var table, i := base + l.rows, Slot(e, drawn);
    if e.early.Some? then Err(e.early.value)
    else if !Found(table, mode, e.id) && i in table then Err(Collision)
    else if e.view.Err? then Err(e.view.error)
    else if Found(table, mode, e.id) then
      Ok(Load(l.rows[i := Owned(e.view.value, table[i].createdBy)], l.created, l.updated + 1))
    else
      Ok(Load(l.rows[i := Owned(e.view.value, user)], l.created + 1, l.updated))
  }

  ghost function LoadAll<V(!new)>(base: map<Id, Owned<V>>, mode: Mode, user: Id, mint: nat -> Id,
                                  entries: seq<Entry<V>>):
      Result<Load<V>, Error>
    decreases |entries|
  {
    if entries == [] then Ok(Load(map[], 0, 0))
    else
      var n := |entries| - 1;
      var l :- LoadAll(base, mode, user, mint, entries[..n]);
      LoadOne(base, mode, user, mint(n), l, entries[n])
  }

  // ---------- What every successful load does

  ghost predicate Fits<V(!new)>(l: Load<V>, i: Id, e: Entry<V>, drawn: Id) {
    e.early.None? && i == Slot(e, drawn) && i in l.rows && e.view == Ok(l.rows[i].view)
  }

  /** The `k`-th item is the last to be stored in the row. */
  ghost predicate LastInSlot<V(!new)>(entries: seq<Entry<V>>, mint: nat -> Id, k: nat, i: Id)
    requires k < |entries|
  {
    && Slot(entries[k], mint(k)) == i
    && forall j: nat :: k < j < |entries| ==> Slot(entries[j], mint(j)) != i
  }

  ghost predicate Faithful<V(!new)>(l: Load<V>, entries: seq<Entry<V>>, mint: nat -> Id) {
    && (forall i :: i in l.rows ==>
        exists k: nat :: k < |entries| && LastInSlot(entries, mint, k, i) && Fits(l, i, entries[k], mint(k)))
    && (forall k: nat :: k < |entries| ==> Slot(entries[k], mint(k)) in l.rows)
  }

  /** What loading one more item does to the rows and the counters. */
  lemma LoadOneWrites<V(!new)>(base: map<Id, Owned<V>>, mode: Mode, user: Id, drawn: Id, l: Load<V>, e: Entry<V>)
    requires LoadOne(base, mode, user, drawn, l, e).Ok?
    ensures
      var next, i := LoadOne(base, mode, user, drawn, l, e).value, Slot(e, drawn);
      && Fits(next, i, e, drawn)
      && next.rows == l.rows[i := next.rows[i]]
      && next.created + next.updated == l.created + l.updated + 1
      && (mode.Replace? ==> next.updated == l.updated)
  {
  }

  lemma StillLast<V(!new)>(entries: seq<Entry<V>>, mint: nat -> Id, k: nat, i: Id)
    requires k < |entries| - 1 && LastInSlot(entries[..|entries| - 1], mint, k, i)
    requires Slot(entries[|entries| - 1], mint(|entries| - 1)) != i
    ensures LastInSlot(entries, mint, k, i)
  {
    var n := |entries| - 1;
    forall j: nat | k < j < |entries| ensures Slot(entries[j], mint(j)) != i {
      assert j == n || entries[j] == entries[..n][j];
    }
  }

  lemma FaithfulStep<V(!new)>(l: Load<V>, next: Load<V>, entries: seq<Entry<V>>, mint: nat -> Id)
    requires entries != [] && Faithful(l, entries[..|entries| - 1], mint)
    requires
      var n := |entries| - 1;
      var i := Slot(entries[n], mint(n));
      Fits(next, i, entries[n], mint(n)) && next.rows == l.rows[i := next.rows[i]]
    ensures Faithful(next, entries, mint)
  {
    var n := |entries| - 1;
    var front, i := entries[..n], Slot(entries[n], mint(n));
    forall j | j in next.rows
      ensures exists k: nat :: k < |entries| && LastInSlot(entries, mint, k, j) && Fits(next, j, entries[k], mint(k))
    {
      if j == i {
        assert LastInSlot(entries, mint, n, j) && Fits(next, j, entries[n], mint(n));
      } else {
        var k: nat :| k < |front| && LastInSlot(front, mint, k, j) && Fits(l, j, front[k], mint(k));
        StillLast(entries, mint, k, j);
        assert Fits(next, j, entries[k], mint(k));
      }
    }
    forall k: nat | k < |entries| ensures Slot(entries[k], mint(k)) in next.rows {
      assert k == n || entries[k] == front[k];
    }
  }

  lemma SizeOfKeys<V>(m: map<Id, V>)
    ensures |m| == |m.Keys|
  {
  }

  lemma GrowsByOne<V>(m: map<Id, V>, i: Id, v: V)
    ensures |m[i := v]| == if i in m then |m| else |m| + 1
  {
    SizeOfKeys(m);
    SizeOfKeys(m[i := v]);
    assert m[i := v].Keys == m.Keys + {i};
  }

  lemma LoadOneCounts<V(!new)>(base: map<Id, Owned<V>>, mode: Mode, user: Id, drawn: Id, l: Load<V>, e: Entry<V>)
    requires LoadOne(base, mode, user, drawn, l, e).Ok?
    ensures
      var next, i := LoadOne(base, mode, user, drawn, l, e).value, Slot(e, drawn);
      && i in next.rows && base + next.rows == (base + l.rows)[i := next.rows[i]]
      && next.created == l.created + (if i in base + l.rows then 0 else 1)
      && next.created + next.updated == l.created + l.updated + 1
  {
  }

  /** A created row is one that was not there, and an updated one was. */
  lemma {:induction false} CreatedIsNew<V(!new)>(base: map<Id, Owned<V>>, mode: Mode, user: Id, mint: nat -> Id,
                                                 entries: seq<Entry<V>>)
    requires LoadAll(base, mode, user, mint, entries).Ok?
    ensures
      var l := LoadAll(base, mode, user, mint, entries).value;
      |base + l.rows| == |base| + l.created && l.created + l.updated == |entries|
    decreases |entries|
  {
    if entries == [] {
      assert base + LoadAll(base, mode, user, mint, entries).value.rows == base;
    } else {
      hide LoadOne;
      var n := |entries| - 1;
      CreatedIsNew(base, mode, user, mint, entries[..n]);
      var l, i := LoadAll(base, mode, user, mint, entries[..n]).value, Slot(entries[n], mint(n));
      LoadOneCounts(base, mode, user, mint(n), l, entries[n]);
      GrowsByOne(base + l.rows, i, LoadAll(base, mode, user, mint, entries).value.rows[i]);
    }
  }

  ghost predicate Credited<V(!new)>(base: map<Id, Owned<V>>, user: Id, l: Load<V>) {
    forall i :: i in l.rows ==> l.rows[i].createdBy == if i in base then base[i].createdBy else user
  }

  lemma LoadOneCredits<V(!new)>(base: map<Id, Owned<V>>, mode: Mode, user: Id, drawn: Id, l: Load<V>, e: Entry<V>)
    requires LoadOne(base, mode, user, drawn, l, e).Ok? && Credited(base, user, l)
    ensures Credited(base, user, LoadOne(base, mode, user, drawn, l, e).value)
  {
  }

  /** An updated row keeps its creator, and a created one is the importing user's, whatever the items. */
  lemma {:induction false} CreatorsAreKept<V(!new)>(base: map<Id, Owned<V>>, mode: Mode, user: Id, mint: nat -> Id,
                                                    entries: seq<Entry<V>>)
    requires LoadAll(base, mode, user, mint, entries).Ok?
    ensures Credited(base, user, LoadAll(base, mode, user, mint, entries).value)
    decreases |entries|
  {
    hide LoadOne;
    if entries != [] {
      var n := |entries| - 1;
      CreatorsAreKept(base, mode, user, mint, entries[..n]);
      LoadOneCredits(base, mode, user, mint(n), LoadAll(base, mode, user, mint, entries[..n]).value, entries[n]);
    }
  }

  /** Every item is counted once, every item's row is written, and a written row holds the content of the
      last item stored in it. */
  lemma {:induction false} LoadIsFaithful<V(!new)>(base: map<Id, Owned<V>>, mode: Mode, user: Id, mint: nat -> Id,
                                                   entries: seq<Entry<V>>)
    requires LoadAll(base, mode, user, mint, entries).Ok?
    ensures
      var l := LoadAll(base, mode, user, mint, entries).value;
      && l.created + l.updated == |entries|
      && (mode.Replace? ==> l.updated == 0)
      && Faithful(l, entries, mint)
    decreases |entries|
  {
    if entries != [] {
      var n := |entries| - 1;
      LoadIsFaithful(base, mode, user, mint, entries[..n]);
      var before, l := LoadAll(base, mode, user, mint, entries[..n]).value,
          LoadAll(base, mode, user, mint, entries).value;
      LoadOneWrites(base, mode, user, mint(n), before, entries[n]);
      FaithfulStep(before, l, entries, mint);
    }
  }

  /** An item whose id no later item carries, and no later draw repeats, decides its row. */
  lemma {:induction false} LastItemDecides<V(!new)>(base: map<Id, Owned<V>>, mode: Mode, user: Id, mint: nat -> Id,
                                     entries: seq<Entry<V>>, k: nat)
    requires LoadAll(base, mode, user, mint, entries).Ok?
    requires k < |entries|
    requires forall j :: k < j < |entries| ==> entries[j].id != entries[k].id
    requires Truthy(entries[k].id)
    ensures
      var l := LoadAll(base, mode, user, mint, entries).value;
      Fits(l, entries[k].id.value, entries[k], "")
    decreases |entries|
  {
    var n := |entries| - 1;
    if k < n {
      LastItemDecides(base, mode, user, mint, entries[..n], k);
    }
  }

  /** In a replace, each item gets a row of its own. */
  lemma {:induction false} ReplaceKeepsEachItem<V(!new)>(base: map<Id, Owned<V>>, user: Id, mint: nat -> Id,
                                                         entries: seq<Entry<V>>)
    requires LoadAll(base, Replace, user, mint, entries).Ok?
    ensures |LoadAll(base, Replace, user, mint, entries).value.rows| == |entries|
    decreases |entries|
  {
    if entries != [] {
      var n := |entries| - 1;
      ReplaceKeepsEachItem(base, user, mint, entries[..n]);
      var before, i := LoadAll(base, Replace, user, mint, entries[..n]).value, Slot(entries[n], mint(n));
      assert LoadAll(base, Replace, user, mint, entries).value.rows.Keys == before.rows.Keys + {i};
    }
  }

  // ---------- Loading twice

  /** An update keeps the row's creator. */
  ghost predicate SameCreators<V(!new)>(a: map<Id, Owned<V>>, b: map<Id, Owned<V>>) {
    forall i :: i in a ==> i in b && b[i].createdBy == a[i].createdBy
  }

  lemma LoadOneKeeps<V(!new)>(base: map<Id, Owned<V>>, mode: Mode, user: Id, drawn: Id, l: Load<V>, e: Entry<V>)
    requires LoadOne(base, mode, user, drawn, l, e).Ok?
    ensures
      var next := LoadOne(base, mode, user, drawn, l, e).value;
      SameCreators(base + l.rows, base + next.rows) && l.rows.Keys <= next.rows.Keys
  {
  }

  lemma {:induction false} LoadPrefix<V(!new)>(base: map<Id, Owned<V>>, mode: Mode, user: Id, mint: nat -> Id,
                                               entries: seq<Entry<V>>, k: nat)
    requires k <= |entries| && LoadAll(base, mode, user, mint, entries).Ok?
    ensures LoadAll(base, mode, user, mint, entries[..k]).Ok?
    ensures
      var a, b := LoadAll(base, mode, user, mint, entries[..k]).value, LoadAll(base, mode, user, mint, entries).value;
      SameCreators(base + a.rows, base + b.rows) && a.rows.Keys <= b.rows.Keys
    decreases |entries|
  {
    hide LoadOne;
    if k == |entries| {
      assert entries[..k] == entries;
    } else {
      var n := |entries| - 1;
      assert entries[..n][..k] == entries[..k];
      LoadPrefix(base, mode, user, mint, entries[..n], k);
      LoadOneKeeps(base, mode, user, mint(n), LoadAll(base, mode, user, mint, entries[..n]).value, entries[n]);
    }
  }

  predicate CarryIds<V>(entries: seq<Entry<V>>) {
    forall k :: 0 <= k < |entries| ==> Truthy(entries[k].id)
  }

  /** Merging again items that all carry ids writes the same rows again, each as an update. */
  lemma {:induction false} LoadAgain<V(!new)>(base: map<Id, Owned<V>>, user: Id, mint: nat -> Id,
                                              entries: seq<Entry<V>>,
                               again: Id, redraw: nat -> Id, k: nat)
    requires k <= |entries| && LoadAll(base, Merge, user, mint, entries).Ok? && CarryIds(entries)
    ensures LoadAll(base, Merge, user, mint, entries[..k]).Ok?
    ensures
      var full := base + LoadAll(base, Merge, user, mint, entries).value.rows;
      var first := LoadAll(base, Merge, user, mint, entries[..k]).value;
      LoadAll(full, Merge, again, redraw, entries[..k]) == Ok(Load(first.rows, 0, k))
    decreases k
  {
    LoadPrefix(base, Merge, user, mint, entries, k);
    if k > 0 {
      assert entries[..k][..k - 1] == entries[..k - 1];
      LoadAgain(base, user, mint, entries, again, redraw, k - 1);
      LoadPrefix(base, Merge, user, mint, entries, k - 1);
      var full := base + LoadAll(base, Merge, user, mint, entries).value.rows;
      var before := LoadAll(base, Merge, user, mint, entries[..k - 1]).value;
      var first := LoadAll(base, Merge, user, mint, entries[..k]).value;
      var i := entries[k - 1].id.value;
      assert i in first.rows;
      assert SameCreators(base + first.rows, full);
      assert SameCreators(base + before.rows, full);
      assert (full + before.rows)[i].createdBy == (base + first.rows)[i].createdBy;
    }
  }

  lemma DrawnIsNew<V(!new)>(base: map<Id, Owned<V>>, user: Id, drawn: Id, l: Load<V>, e: Entry<V>)
    requires LoadOne(base, Merge, user, drawn, l, e).Ok? && !Truthy(e.id)
    ensures drawn !in base && drawn in LoadOne(base, Merge, user, drawn, l, e).value.rows
  {
  }

  /** An item without an id always adds a row, so merging it again changes the table. */
  lemma NoIdAddsRow<V(!new)>(base: map<Id, Owned<V>>, user: Id, mint: nat -> Id, entries: seq<Entry<V>>)
    requires LoadAll(base, Merge, user, mint, entries).Ok? && !CarryIds(entries)
    ensures base + LoadAll(base, Merge, user, mint, entries).value.rows != base
  {
    hide LoadOne, LoadAll;
    var k :| 0 <= k < |entries| && !Truthy(entries[k].id);
    LoadPrefix(base, Merge, user, mint, entries, k);
    LoadPrefix(base, Merge, user, mint, entries, k + 1);
    LoadStep(base, Merge, user, mint, entries, k);
    DrawnIsNew(base, user, mint(k), LoadAll(base, Merge, user, mint, entries[..k]).value, entries[k]);
    assert mint(k) in (base + LoadAll(base, Merge, user, mint, entries).value.rows).Keys;
  }

  // ---------- Item by item

  lemma LoadStep<V(!new)>(base: map<Id, Owned<V>>, mode: Mode, user: Id, mint: nat -> Id, entries: seq<Entry<V>>,
                          k: nat)
    requires k < |entries| && LoadAll(base, mode, user, mint, entries[..k]).Ok?
    ensures LoadAll(base, mode, user, mint, entries[..k + 1]) ==
            LoadOne(base, mode, user, mint(k), LoadAll(base, mode, user, mint, entries[..k]).value, entries[k])
  {
    assert entries[..k + 1][..k] == entries[..k];
  }

  /** A load fails with the error of its first failing item. */
  lemma {:induction false} LoadFailure<V(!new)>(base: map<Id, Owned<V>>, mode: Mode, user: Id, mint: nat -> Id,
                                                entries: seq<Entry<V>>, k: nat)
    requires k <= |entries| && LoadAll(base, mode, user, mint, entries[..k]).Err?
    ensures LoadAll(base, mode, user, mint, entries) == LoadAll(base, mode, user, mint, entries[..k])
    decreases |entries|
  {
    if k == |entries| {
      assert entries[..k] == entries;
    } else {
      var n := |entries| - 1;
      assert entries[..n][..k] == entries[..k];
      LoadFailure(base, mode, user, mint, entries[..n], k);
    }
  }

  // ---------- Loading an export

  /** Items with distinct ids, none of which can fail on its own. */
  ghost predicate Clean<V(!new)>(entries: seq<Entry<V>>) {
    && CarryIds(entries)
    && (forall k :: 0 <= k < |entries| ==> entries[k].early.None? && entries[k].view.Ok?)
    && (forall j, k :: 0 <= j < k < |entries| ==> entries[j].id != entries[k].id)
  }

  /** The rows that clean items ask for. */
  ghost predicate Holds<V(!new)>(rows: map<Id, Owned<V>>, entries: seq<Entry<V>>) {
    && (forall i :: i in rows <==> exists k :: 0 <= k < |entries| && entries[k].id == Some(i))
    && (forall k :: 0 <= k < |entries| && entries[k].id.Some? && entries[k].id.value in rows ==>
         entries[k].view == Ok(rows[entries[k].id.value].view))
  }

  lemma HoldsOneMore<V(!new)>(rows: map<Id, Owned<V>>, entries: seq<Entry<V>>, row: Owned<V>)
    requires Clean(entries) && entries != []
    requires Holds(rows, entries[..|entries| - 1])
    requires entries[|entries| - 1].view == Ok(row.view)
    ensures entries[|entries| - 1].id.value !in rows
    ensures Holds(rows[entries[|entries| - 1].id.value := row], entries)
  {
    var n := |entries| - 1;
    var front, x := entries[..n], entries[n].id.value;
    assert forall k :: 0 <= k < n ==> front[k] == entries[k];
    forall i
      ensures i in rows[x := row] <==> exists k :: 0 <= k < |entries| && entries[k].id == Some(i)
    {
      if i in rows {
        var k :| 0 <= k < n && front[k].id == Some(i);
        assert entries[k].id == Some(i);
      }
      if k :| 0 <= k < |entries| && entries[k].id == Some(i) {
        assert k == n || front[k].id == Some(i);
      }
    }
  }

  lemma CleanItemLoads<V(!new)>(base: map<Id, Owned<V>>, mode: Mode, user: Id, drawn: Id, l: Load<V>, e: Entry<V>)
    requires Truthy(e.id) && e.early.None? && e.view.Ok? && e.id.value !in l.rows && (mode.Replace? ==> base == map[])
    ensures LoadOne(base, mode, user, drawn, l, e).Ok?
    ensures LoadOne(base, mode, user, drawn, l, e).value.rows ==
            l.rows[e.id.value := Owned(e.view.value, if e.id.value in base then base[e.id.value].createdBy else user)]
  {
  }

  lemma {:induction false} LoadClean<V(!new)>(base: map<Id, Owned<V>>, mode: Mode, user: Id, mint: nat -> Id,
                                              entries: seq<Entry<V>>)
    requires Clean(entries) && (mode.Replace? ==> base == map[])
    ensures LoadAll(base, mode, user, mint, entries).Ok?
    ensures
      var l := LoadAll(base, mode, user, mint, entries).value;
      && Holds(l.rows, entries)
      && forall i :: i in l.rows ==> l.rows[i].createdBy == if i in base then base[i].createdBy else user
    decreases |entries|
  {
    hide LoadOne;
    if entries != [] {
      var n := |entries| - 1;
      LoadClean(base, mode, user, mint, entries[..n]);
      var before, e := LoadAll(base, mode, user, mint, entries[..n]).value, entries[n];
      HoldsOneMore(before.rows, entries, Owned(e.view.value, if e.id.value in base then base[e.id.value].createdBy
                                               else user));
      CleanItemLoads(base, mode, user, mint(n), before, e);
    }
  }
}
