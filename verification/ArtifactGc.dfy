/** The artifact archive: files are written before they are catalogued and deleted after the intent to delete
    them is committed, so that a crash between any two steps loses nothing that is still promised. */
module ArtifactGc {
  import opened Terms

  /** An artifact id, a random hexadecimal text: its rank in text order. */
  type Id = nat

  type Checksum = nat

  datatype Row = Row(
    wallet: Wallet, deep: bool, checksum: Checksum, active: bool, createdAt: int, updatedAt: int,
    purgeStartedAt: Option<int>, purgedAt: Option<int>)

  type Catalog = map<Id, Row>

  /** The committed catalog, the files, and what the running processes hold in memory: rows not yet
      catalogued, failed writes, and the artifacts each phase of a collection still has to treat. */
  datatype World = World(
    catalog: Catalog, files: map<Id, Checksum>,
    drafts: map<Id, Row>, failed: map<Id, Checksum>, doomed: map<Id, Checksum>,
    selected: map<Id, Checksum>, unlinking: map<Id, Checksum>, finalizing: set<Id>)

  const NEW_WORLD := World(map[], map[], map[], map[], map[], map[], map[], {})

  datatype Step =
    | WriteFile(id: Id, wallet: Wallet, deep: bool, checksum: Checksum, now: int)
    | Commit(id: Id, acknowledged: bool)
    | Abort(id: Id)
    | FindUncatalogued(id: Id)
    | DeleteUncommitted(id: Id)
    | Select(ids: set<Id>, minAge: int, now: int)
    | StartPurge(id: Id, now: int)
    | Skip(id: Id)
    | Unlink(id: Id)
    | Finalize(id: Id, now: int)
    | Rot(id: Id, checksum: Checksum)
    | Crash

  // ---------- Ranking ----------

  /** `ORDER BY created_at DESC, artifact_id DESC`. */
  predicate Newer(c: Catalog, x: Id, y: Id)
    requires x in c && y in c
  {
    c[x].createdAt > c[y].createdAt || (c[x].createdAt == c[y].createdAt && x > y)
  }

  predicate Purgeable(c: Catalog, id: Id) {
    id in c && !c[id].active && c[id].purgedAt.None?
  }

  /** The rows that precede this one in the ranking of its wallet's superseded, unpurged rows. */
  function Ahead(c: Catalog, id: Id): set<Id>
    requires id in c
  {
    set x | x in c && c[x].wallet == c[id].wallet && Purgeable(c, x) && Newer(c, x, id)
  }

  predicate Collectable(c: Catalog, id: Id, keep: nat, minAge: int, now: int) {
    && Purgeable(c, id)
    && (c[id].purgeStartedAt.Some? || (|Ahead(c, id)| >= keep && c[id].updatedAt <= now - Max(0, minAge)))
  }

  // ---------- Steps ----------

  predicate BlocksCommit(c: Catalog, row: Row, id: Id) {
    id in c && c[id].wallet == row.wallet && c[id].active && c[id].deep && !row.deep
  }

  /** Supersede the wallet's active row and insert the new one. */
  function Catalogued(c: Catalog, id: Id, row: Row): Catalog {
    (map x | x in c :: if c[x].wallet == row.wallet && c[x].active && (row.deep || !c[x].deep)
                       then c[x].(active := false, updatedAt := row.createdAt) else c[x])
    [id := row]
  }

  function Marked(c: Catalog, id: Id, now: int): Catalog
    requires id in c
  {
    c[id := c[id].(purgeStartedAt := if c[id].purgeStartedAt.None? then Some(now) else c[id].purgeStartedAt)]
  }

  predicate Enabled(w: World, s: Step, keep: nat) {
    match s
    case WriteFile(id, _, _, _, _) =>
      id !in w.files && id !in w.catalog && id !in w.drafts && id !in w.failed && id !in w.doomed
    case Commit(id, _) => id in w.drafts && forall x | x in w.catalog :: !BlocksCommit(w.catalog, w.drafts[id], x)
    case Abort(id) => id in w.drafts
    case FindUncatalogued(id) => id in w.failed && id !in w.catalog
    case DeleteUncommitted(id) => id in w.doomed
    case Select(ids, minAge, now) => forall x | x in ids :: Collectable(w.catalog, x, keep, minAge, now)
    case StartPurge(id, _) => id in w.selected && (id in w.files ==> w.files[id] == w.selected[id])
    case Skip(id) => id in w.selected
    case Unlink(id) => id in w.unlinking
    case Finalize(id, _) => id in w.finalizing
    case Rot(id, _) => id in w.files
    case Crash => true
  }

  /** `_delete_exact_artifact_file`: only a file of the expected checksum is deleted. */
  function Deleted(files: map<Id, Checksum>, id: Id, expected: Checksum): map<Id, Checksum> {
    if id in files && files[id] == expected then Without(files, id) else files
  }

  function Next(w: World, s: Step, keep: nat): World
    requires Enabled(w, s, keep)
  {
    match s
    case WriteFile(id, wallet, deep, checksum, now) =>
      w.(files := w.files[id := checksum],
         drafts := w.drafts[id := Row(wallet, deep, checksum, true, now, now, None, None)])
    case Commit(id, acknowledged) =>
      var row := w.drafts[id];
      w.(catalog := Catalogued(w.catalog, id, row), drafts := Without(w.drafts, id),
         failed := if acknowledged then w.failed else w.failed[id := row.checksum])
    case Abort(id) => w.(drafts := Without(w.drafts, id), failed := w.failed[id := w.drafts[id].checksum])
    case FindUncatalogued(id) => w.(failed := Without(w.failed, id), doomed := w.doomed[id := w.failed[id]])
    case DeleteUncommitted(id) =>
      w.(doomed := Without(w.doomed, id), files := Deleted(w.files, id, w.doomed[id]))
    case Select(ids, _, _) => w.(selected := w.selected + map x | x in ids :: w.catalog[x].checksum)
    case StartPurge(id, now) =>
      if Purgeable(w.catalog, id) then
        w.(catalog := Marked(w.catalog, id, now),
           selected := Without(w.selected, id), unlinking := w.unlinking[id := w.selected[id]])
      else w.(selected := Without(w.selected, id))
    case Skip(id) => w.(selected := Without(w.selected, id))
    case Unlink(id) =>
      var files := Deleted(w.files, id, w.unlinking[id]);
      w.(files := files, unlinking := Without(w.unlinking, id),
         finalizing := if id in files then w.finalizing else w.finalizing + {id})
    case Finalize(id, now) =>
      var unfinished := Purgeable(w.catalog, id) && w.catalog[id].purgeStartedAt.Some?;
      w.(finalizing := w.finalizing - {id},
         catalog := if unfinished then w.catalog[id := w.catalog[id].(purgedAt := Some(now), updatedAt := now)]
                    else w.catalog)
    case Rot(id, checksum) => w.(files := w.files[id := checksum])
    case Crash => World(w.catalog, w.files, map[], map[], map[], map[], map[], {})
  }

  // ---------- Invariants ----------

  predicate OneActivePerWallet(c: Catalog) {
    forall x, y | x in c && y in c && c[x].active && c[y].active && c[x].wallet == c[y].wallet :: x == y
  }

  predicate Promised(c: Catalog, id: Id) {
    id in c && c[id].purgeStartedAt.None?
  }

  /** The superseded rows newer than this one that nobody intends to purge. */
  function Kept(c: Catalog, id: Id): set<Id>
    requires id in c
  {
    set x | x in c && c[x].wallet == c[id].wallet && !c[x].active && c[x].purgeStartedAt.None? && Newer(c, x, id)
  }

  predicate Sheltered(c: Catalog, id: Id, keep: nat) {
    id in c && !c[id].active && |Kept(c, id)| >= keep
  }

  ghost predicate CatalogIsSound(c: Catalog) {
    && OneActivePerWallet(c)
    && forall x | x in c && c[x].purgedAt.Some? :: c[x].purgeStartedAt.Some?
  }

  /** A row nobody intends to purge has its file. */
  ghost predicate PromisesAreKept(c: Catalog, files: map<Id, Checksum>) {
    forall x | Promised(c, x) :: x in files
  }

  /** What processes hold in memory agrees with the catalog and the files. */
  ghost predicate MemoryAgrees(w: World) {
    && (forall x | x in w.drafts :: x in w.files && x !in w.catalog && x !in w.doomed && x !in w.failed
                                    && w.drafts[x].active && w.drafts[x].purgeStartedAt.None?
                                    && w.drafts[x].purgedAt.None?)
    && (forall x | x in w.doomed :: x !in w.catalog)
    && (forall x | x in w.unlinking :: x in w.catalog && w.catalog[x].purgeStartedAt.Some?)
  }

  ghost predicate FilesAreKept(w: World) {
    CatalogIsSound(w.catalog) && PromisesAreKept(w.catalog, w.files) && MemoryAgrees(w)
  }

  /** Whatever is, or is about to be, marked for purging has `keep` newer rows that are not. */
  ghost predicate MarksAreSheltered(w: World, keep: nat) {
    && (forall x | x in w.catalog && w.catalog[x].purgeStartedAt.Some? :: Sheltered(w.catalog, x, keep))
    && (forall x | x in w.selected :: Sheltered(w.catalog, x, keep))
  }

  ghost predicate Invariant(w: World, keep: nat) {
    FilesAreKept(w) && MarksAreSheltered(w, keep)
  }

  /** What a step that marks nothing does to the rows that were there. */
  ghost predicate OnlySupersedes(c: Catalog, c': Catalog) {
    forall x | x in c ::
      && x in c' && c'[x].wallet == c[x].wallet && c'[x].createdAt == c[x].createdAt
      && (!c[x].active ==> !c'[x].active) && c'[x].purgeStartedAt == c[x].purgeStartedAt
  }

  lemma SheltersStay(c: Catalog, c': Catalog, keep: nat)
    requires OnlySupersedes(c, c')
    ensures forall x | Sheltered(c, x, keep) :: Sheltered(c', x, keep)
  {
    forall x | Sheltered(c, x, keep) ensures Sheltered(c', x, keep) {
      SubsetCount(Kept(c, x), Kept(c', x));
    }
  }

  /** A row ranked below `keep` others has `keep` unmarked ones ahead: behind a marked row there are as many. */
  lemma SelectedIsSheltered(w: World, id: Id, keep: nat, minAge: int, now: int)
    requires MarksAreSheltered(w, keep) && Collectable(w.catalog, id, keep, minAge, now)
    ensures Sheltered(w.catalog, id, keep)
  {
    var c := w.catalog;
    if c[id].purgeStartedAt.None? {
      if marked :| marked in Ahead(c, id) && c[marked].purgeStartedAt.Some? {
        assert Sheltered(c, marked, keep);
        SubsetCount(Kept(c, marked), Kept(c, id));
      } else {
        SubsetCount(Ahead(c, id), Kept(c, id));
      }
    }
  }

  /** Marking a sheltered row leaves every sheltered row sheltered: what sheltered it shelters them. */
  lemma MarkingKeepsShelter(c: Catalog, marked: Id, now: Option<int>, id: Id, keep: nat)
    requires Sheltered(c, marked, keep) && Sheltered(c, id, keep)
    ensures Sheltered(c[marked := c[marked].(purgeStartedAt := now)], id, keep)
  {
    var c' := c[marked := c[marked].(purgeStartedAt := now)];
    if marked in Kept(c, id) {
      SubsetCount(Kept(c, marked), Kept(c', id));
    } else {
      SubsetCount(Kept(c, id), Kept(c', id));
    }
  }

  lemma CataloguedIsSound(c: Catalog, files: map<Id, Checksum>, id: Id, row: Row)
    requires CatalogIsSound(c) && PromisesAreKept(c, files) && id !in c && id in files
    requires row.active && row.purgeStartedAt.None? && row.purgedAt.None?
    requires forall x | x in c :: !BlocksCommit(c, row, x)
    ensures CatalogIsSound(Catalogued(c, id, row)) && PromisesAreKept(Catalogued(c, id, row), files)
    ensures OnlySupersedes(c, Catalogued(c, id, row))
  {
    var c' := Catalogued(c, id, row);
    assert forall x | x in c && c[x].wallet == row.wallet :: !c'[x].active;
    assert forall x | Promised(c', x) :: x == id || Promised(c, x);
  }

  lemma CommitKeepsFiles(w: World, s: Step, keep: nat)
    requires s.Commit? && FilesAreKept(w) && Enabled(w, s, keep)
    ensures FilesAreKept(Next(w, s, keep))
    ensures OnlySupersedes(w.catalog, Next(w, s, keep).catalog)
  {
    CataloguedIsSound(w.catalog, w.files, s.id, w.drafts[s.id]);
  }

  lemma WritingKeepsFiles(w: World, s: Step, keep: nat)
    requires s.WriteFile? || s.Abort? || s.FindUncatalogued? || s.DeleteUncommitted? || s.Rot? || s.Crash?
    requires FilesAreKept(w) && Enabled(w, s, keep)
    ensures FilesAreKept(Next(w, s, keep)) && Next(w, s, keep).catalog == w.catalog
  {
  }

  lemma ListingKeepsFiles(w: World, s: Step, keep: nat)
    requires (s.Select? || s.Skip?) && FilesAreKept(w) && Enabled(w, s, keep)
    ensures FilesAreKept(Next(w, s, keep))
    ensures OnlySupersedes(w.catalog, Next(w, s, keep).catalog)
  {
  }

  lemma MarkedRowIsSound(c: Catalog, files: map<Id, Checksum>, id: Id, row: Row)
    requires CatalogIsSound(c) && PromisesAreKept(c, files) && id in c
    requires row.active == c[id].active && row.wallet == c[id].wallet && row.purgeStartedAt.Some?
    ensures CatalogIsSound(c[id := row]) && PromisesAreKept(c[id := row], files)
  {
    assert forall x | Promised(c[id := row], x) :: Promised(c, x);
  }

  lemma StartKeepsFiles(w: World, s: Step, keep: nat)
    requires s.StartPurge? && FilesAreKept(w) && Enabled(w, s, keep)
    ensures FilesAreKept(Next(w, s, keep))
  {
    if Purgeable(w.catalog, s.id) {
      MarkedRowIsSound(w.catalog, w.files, s.id, Marked(w.catalog, s.id, s.now)[s.id]);
    }
  }

  lemma UnlinkKeepsFiles(w: World, s: Step, keep: nat)
    requires s.Unlink? && FilesAreKept(w) && Enabled(w, s, keep)
    ensures FilesAreKept(Next(w, s, keep))
    ensures OnlySupersedes(w.catalog, Next(w, s, keep).catalog)
  {
  }

  lemma FinalizedRow(w: World, s: Step, keep: nat)
    requires s.Finalize? && CatalogIsSound(w.catalog) && PromisesAreKept(w.catalog, w.files) && Enabled(w, s, keep)
    ensures
      var c' := Next(w, s, keep).catalog;
      && CatalogIsSound(c') && PromisesAreKept(c', w.files) && OnlySupersedes(w.catalog, c')
      && c'.Keys == w.catalog.Keys
  {
    if Next(w, s, keep).catalog != w.catalog {
      MarkedRowIsSound(w.catalog, w.files, s.id, Next(w, s, keep).catalog[s.id]);
    }
  }

  lemma FinalizeKeepsFiles(w: World, s: Step, keep: nat)
    requires s.Finalize? && FilesAreKept(w) && Enabled(w, s, keep)
    ensures FilesAreKept(Next(w, s, keep))
    ensures OnlySupersedes(w.catalog, Next(w, s, keep).catalog)
  {
    FinalizedRow(w, s, keep);
  }

  lemma StepKeepsFiles(w: World, s: Step, keep: nat)
    requires FilesAreKept(w) && Enabled(w, s, keep)
    ensures FilesAreKept(Next(w, s, keep))
    ensures !s.StartPurge? ==> OnlySupersedes(w.catalog, Next(w, s, keep).catalog)
  {
    match s
    case Commit(_, _) => CommitKeepsFiles(w, s, keep);
    case Select(_, _, _) => ListingKeepsFiles(w, s, keep);
    case Skip(_) => ListingKeepsFiles(w, s, keep);
    case StartPurge(_, _) => StartKeepsFiles(w, s, keep);
    case Unlink(_) => UnlinkKeepsFiles(w, s, keep);
    case Finalize(_, _) => FinalizeKeepsFiles(w, s, keep);
    case _ => WritingKeepsFiles(w, s, keep);
  }

  lemma SelectKeepsShelter(w: World, s: Step, keep: nat)
    requires s.Select? && MarksAreSheltered(w, keep) && Enabled(w, s, keep)
    ensures MarksAreSheltered(Next(w, s, keep), keep)
  {
    forall x | x in s.ids ensures Sheltered(w.catalog, x, keep) {
      SelectedIsSheltered(w, x, keep, s.minAge, s.now);
    }
  }

  lemma MarkedKeepsShelters(c: Catalog, id: Id, now: int, keep: nat)
    requires Sheltered(c, id, keep)
    ensures forall x | Sheltered(c, x, keep) :: Sheltered(Marked(c, id, now), x, keep)
  {
    forall x | Sheltered(c, x, keep) ensures Sheltered(Marked(c, id, now), x, keep) {
      MarkingKeepsShelter(c, id, Marked(c, id, now)[id].purgeStartedAt, x, keep);
    }
  }

  lemma StartKeepsShelter(w: World, s: Step, keep: nat)
    requires s.StartPurge? && MarksAreSheltered(w, keep) && Enabled(w, s, keep)
    ensures MarksAreSheltered(Next(w, s, keep), keep)
  {
    if Purgeable(w.catalog, s.id) {
      MarkedKeepsShelters(w.catalog, s.id, s.now, keep);
    }
  }

  lemma OthersKeepShelter(w: World, s: Step, keep: nat)
    requires !s.Select? && !s.StartPurge? && Invariant(w, keep) && Enabled(w, s, keep)
    ensures MarksAreSheltered(Next(w, s, keep), keep)
  {
    StepKeepsFiles(w, s, keep);
    SheltersStay(w.catalog, Next(w, s, keep).catalog, keep);
  }

  lemma StepKeepsInvariant(w: World, s: Step, keep: nat)
    requires Invariant(w, keep) && Enabled(w, s, keep)
    ensures Invariant(Next(w, s, keep), keep)
  {
    StepKeepsFiles(w, s, keep);
    if s.Select? {
      SelectKeepsShelter(w, s, keep);
    } else if s.StartPurge? {
      StartKeepsShelter(w, s, keep);
    } else {
      OthersKeepShelter(w, s, keep);
    }
  }

  // ---------- Whole runs ----------

  ghost predicate IsRun(steps: seq<Step>, w: World, keep: nat)
    decreases |steps|, 0
  {
    steps == [] ||
    (var init, last := steps[..|steps| - 1], steps[|steps| - 1];
     IsRun(init, w, keep) && Enabled(After(init, w, keep), last, keep))
  }

  ghost function After(steps: seq<Step>, w: World, keep: nat): World
    requires IsRun(steps, w, keep)
    decreases |steps|, 1
  {
    if steps == [] then w else Next(After(steps[..|steps| - 1], w, keep), steps[|steps| - 1], keep)
  }

  lemma {:induction false} RunKeepsInvariant(steps: seq<Step>, w: World, keep: nat)
    requires Invariant(w, keep) && IsRun(steps, w, keep)
    ensures Invariant(After(steps, w, keep), keep)
  {
    if steps != [] {
      var init := steps[..|steps| - 1];
      RunKeepsInvariant(init, w, keep);
      StepKeepsInvariant(After(init, w, keep), steps[|steps| - 1], keep);
    }
  }

  /** However writers, collections and crashes interleave: one active artifact per wallet, a file behind every
      row without a purge intent, and no intent on the `keep` newest superseded rows of a wallet. */
  lemma ArchiveIsSafe(steps: seq<Step>, keep: nat)
    requires IsRun(steps, NEW_WORLD, keep)
    ensures
      var w := After(steps, NEW_WORLD, keep);
      && OneActivePerWallet(w.catalog)
      && (forall x | Promised(w.catalog, x) :: x in w.files)
      && (forall x | x in w.catalog && (w.catalog[x].active || |Ahead(w.catalog, x)| < keep) ::
            Promised(w.catalog, x))
  {
    RunKeepsInvariant(steps, NEW_WORLD, keep);
    var c := After(steps, NEW_WORLD, keep).catalog;
    forall x | x in c && c[x].purgeStartedAt.Some? ensures !c[x].active && |Ahead(c, x)| >= keep {
      assert Sheltered(c, x, keep);
      SubsetCount(Kept(c, x), Ahead(c, x));
    }
  }

  /** A file disappears only when no catalog row has it, or its row is superseded and the intent to purge it
      was committed first. */
  lemma DeletionIsJustified(w: World, s: Step, keep: nat, id: Id)
    requires Invariant(w, keep) && Enabled(w, s, keep)
    requires id in w.files && id !in Next(w, s, keep).files
    ensures id !in w.catalog || (!w.catalog[id].active && w.catalog[id].purgeStartedAt.Some?)
  {
    if s.Unlink? {
      assert Sheltered(w.catalog, id, keep);
    }
  }

  ghost predicate HasActive(c: Catalog, wallet: Wallet, deep: bool) {
    exists x :: x in c && c[x].wallet == wallet && c[x].active && (deep ==> c[x].deep)
  }

  lemma CommitKeepsDepth(c: Catalog, id: Id, row: Row, x: Id, wallet: Wallet, deep: bool)
    requires id !in c && row.active && !BlocksCommit(c, row, x)
    requires x in c && c[x].wallet == wallet && c[x].active && (deep ==> c[x].deep)
    ensures HasActive(Catalogued(c, id, row), wallet, deep)
  {
    var c' := Catalogued(c, id, row);
    if row.wallet == wallet {
      assert id in c' && c'[id] == row;
    } else {
      assert x in c' && c'[x] == c[x];
    }
  }

  lemma ActiveRowStays(w: World, s: Step, keep: nat, x: Id)
    requires Enabled(w, s, keep) && !s.Commit? && x in w.catalog && w.catalog[x].active
    ensures x in Next(w, s, keep).catalog && Next(w, s, keep).catalog[x] == w.catalog[x]
  {
  }

  lemma StepKeepsDepth(w: World, s: Step, keep: nat, wallet: Wallet, deep: bool)
    requires FilesAreKept(w) && Enabled(w, s, keep) && HasActive(w.catalog, wallet, deep)
    ensures HasActive(Next(w, s, keep).catalog, wallet, deep)
  {
    var x :| x in w.catalog && w.catalog[x].wallet == wallet && w.catalog[x].active && (deep ==> w.catalog[x].deep);
    if s.Commit? {
      CommitKeepsDepth(w.catalog, s.id, w.drafts[s.id], x, wallet, deep);
    } else {
      ActiveRowStays(w, s, keep, x);
    }
  }

  /** Once a wallet has an active history it always has one, and deep is never replaced by light. */
  lemma {:induction false} DepthNeverDrops(steps: seq<Step>, w: World, keep: nat, wallet: Wallet, deep: bool)
    requires Invariant(w, keep) && IsRun(steps, w, keep) && HasActive(w.catalog, wallet, deep)
    ensures HasActive(After(steps, w, keep).catalog, wallet, deep)
  {
    if steps != [] {
      var init := steps[..|steps| - 1];
      RunKeepsInvariant(init, w, keep);
      DepthNeverDrops(init, w, keep, wallet, deep);
      StepKeepsDepth(After(init, w, keep), steps[|steps| - 1], keep, wallet, deep);
    }
  }

  // ---------- One collection ----------

  /** Interrupted purges first, then the oldest. */
  predicate PurgeBefore(c: Catalog, x: Id, y: Id)
    requires x in c && y in c
  {
    var sx, sy := c[x].purgeStartedAt, c[y].purgeStartedAt;
    var tx, ty := if sx.Some? then sx.value else c[x].updatedAt, if sy.Some? then sy.value else c[y].updatedAt;
    || (sx.Some? && sy.None?)
    || (sx.Some? == sy.Some? && (tx < ty || (tx == ty && x < y)))
  }

  function AllCollectable(c: Catalog, keep: nat, minAge: int, now: int): set<Id> {
    set x | x in c && Collectable(c, x, keep, minAge, now)
  }

  method First(c: Catalog, ids: set<Id>) returns (first: Id)
    requires ids != {} && ids <= c.Keys
    ensures first in ids && forall y | y in ids && y != first :: PurgeBefore(c, first, y)
  {
    first :| first in ids;
    var rest := ids - {first};
    while rest != {}
      invariant first in ids && rest <= ids && first !in rest
      invariant forall y | y in ids && y !in rest && y != first :: PurgeBefore(c, first, y)
      decreases rest
    {
      var x :| x in rest;
      rest := rest - {x};
      if PurgeBefore(c, x, first) {
        first := x;
      }
    }
  }

  /** The first `limit` collectable rows. */
  ghost predicate IsPurgeSelection(c: Catalog, keep: nat, minAge: int, now: int, limit: nat, ids: seq<Id>) {
    && SetOf(ids) <= AllCollectable(c, keep, minAge, now) && |SetOf(ids)| == |ids| <= limit
    && (forall x, y | x in SetOf(ids) && y in AllCollectable(c, keep, minAge, now) - SetOf(ids) :: PurgeBefore(c, x, y))
    && (|ids| < limit ==> SetOf(ids) == AllCollectable(c, keep, minAge, now))
  }

  method SelectForPurge(c: Catalog, keep: nat, minAge: int, now: int, limit: nat) returns (ids: seq<Id>)
    ensures IsPurgeSelection(c, keep, minAge, now, limit, ids)
  {
    ids := [];
    var rest := AllCollectable(c, keep, minAge, now);
    while rest != {} && |ids| < limit
      invariant rest == AllCollectable(c, keep, minAge, now) - SetOf(ids)
      invariant SetOf(ids) <= AllCollectable(c, keep, minAge, now) && |SetOf(ids)| == |ids| <= limit
      invariant forall x, y | x in SetOf(ids) && y in rest :: PurgeBefore(c, x, y)
      decreases rest
    {
      var x := First(c, rest);
      assert (ids + [x])[..|ids|] == ids;
      ids, rest := ids + [x], rest - {x};
    }
  }

  function Interrupted(c: Catalog): set<Id> {
    set x | x in c && Purgeable(c, x) && c[x].purgeStartedAt.Some?
  }

  /** Interrupted purges that fit in the limit are all selected. */
  lemma InterruptedAreSelected(c: Catalog, keep: nat, minAge: int, now: int, limit: nat, ids: seq<Id>)
    requires IsPurgeSelection(c, keep, minAge, now, limit, ids) && |Interrupted(c)| <= limit
    ensures Interrupted(c) <= SetOf(ids)
  {
    forall y | y in Interrupted(c) ensures y in SetOf(ids) {
      if y !in SetOf(ids) {
        assert y in AllCollectable(c, keep, minAge, now) - SetOf(ids);
        SubsetCount(SetOf(ids) + {y}, Interrupted(c));
      }
    }
  }

  /** The collection has dealt with the row: it is purged and its file gone, or its file was not the one the
      catalog knows and nothing happened to it. */
  predicate Settled(c: Catalog, files: map<Id, Checksum>, id: Id, expected: Checksum) {
    if id in files then files[id] != expected else id in c && c[id].purgedAt.Some?
  }

  /** Every row of the collection is settled; the other rows are as they were. */
  ghost predicate AreSettled(before: Catalog, c: Catalog, files: map<Id, Checksum>, ids: seq<Id>) {
    && (forall x | x in SetOf(ids) :: x in before && Settled(c, files, x, before[x].checksum))
    && (forall x | x in before && x !in SetOf(ids) :: x in c && c[x] == before[x])
  }

  lemma {:induction false} RunsFollow(a: seq<Step>, b: seq<Step>, w: World, keep: nat)
    requires IsRun(a, w, keep) && IsRun(b, After(a, w, keep), keep)
    ensures IsRun(a + b, w, keep) && After(a + b, w, keep) == After(b, After(a, w, keep), keep)
  {
    if b == [] {
      assert a + b == a;
    } else {
      RunsFollow(a, b[..|b| - 1], w, keep);
      assert (a + b)[..|a + b| - 1] == a + b[..|b| - 1];
    }
  }

  /** The file on disk is not the one the catalog knows. */
  predicate Mismatch(files: map<Id, Checksum>, id: Id, expected: Checksum) {
    id in files && files[id] != expected
  }

  function CollectSteps(files: map<Id, Checksum>, id: Id, expected: Checksum, now: int): seq<Step> {
    if Mismatch(files, id, expected) then [Skip(id)] else [StartPurge(id, now), Unlink(id), Finalize(id, now)]
  }

  function Purged(c: Catalog, id: Id, now: int): Catalog
    requires id in c
  {
    c[id := Marked(c, id, now)[id].(purgedAt := Some(now), updatedAt := now)]
  }

  function Collected(w: World, id: Id, now: int): World {
    if id !in w.selected || id !in w.catalog then w
    else if Mismatch(w.files, id, w.selected[id]) then w.(selected := Without(w.selected, id))
    else w.(selected := Without(w.selected, id), files := Without(w.files, id), catalog := Purged(w.catalog, id, now))
  }

  /** A collection of `all` under way: `done` is settled, the rest still selected, other rows are as they were. */
  ghost predicate Collecting(before: Catalog, w: World, all: set<Id>, done: set<Id>) {
    && w == NEW_WORLD.(catalog := w.catalog, files := w.files, selected := w.selected)
    && (forall x :: x in w.selected <==> x in all && x !in done)
    && (forall x | x in all :: Purgeable(before, x))
    && (forall x | x in w.selected :: w.selected[x] == before[x].checksum)
    && (forall x | x in before && x !in done :: x in w.catalog && w.catalog[x] == before[x])
    && (forall x | x in done :: x in before && Settled(w.catalog, w.files, x, before[x].checksum))
  }

  lemma CollectionStarts(start: World, ids: set<Id>, minAge: int, now: int, keep: nat) returns (w: World)
    requires start == NEW_WORLD.(catalog := start.catalog, files := start.files)
    requires ids <= AllCollectable(start.catalog, keep, minAge, now)
    ensures IsRun([Select(ids, minAge, now)], start, keep) && w == After([Select(ids, minAge, now)], start, keep)
    ensures Collecting(start.catalog, w, ids, {}) && w.catalog == start.catalog && w.files == start.files
  {
    RunOfOne(start, Select(ids, minAge, now), keep);
    w := Next(start, Select(ids, minAge, now), keep);
  }

  lemma CollectingNext(before: Catalog, w: World, all: set<Id>, done: set<Id>, id: Id, now: int)
    requires Collecting(before, w, all, done) && id in all && id !in done
    ensures Collecting(before, Collected(w, id, now), all, done + {id})
  {
    assert w.catalog[id] == before[id];
  }

  lemma PurgeRuns(w: World, id: Id, now: int, keep: nat)
    requires id in w.selected && Purgeable(w.catalog, id) && w.unlinking == map[] && w.finalizing == {}
    requires !Mismatch(w.files, id, w.selected[id])
    ensures
      var steps := [StartPurge(id, now), Unlink(id), Finalize(id, now)];
      IsRun(steps, w, keep) && After(steps, w, keep) == Collected(w, id, now)
  {
    var a, b, c := StartPurge(id, now), Unlink(id), Finalize(id, now);
    MarkedAndUnlinked(w, id, now, keep);
    RunOfOne(w, a, keep);
    var w1 := Next(w, a, keep);
    RunOfOne(w1, b, keep);
    var w2 := Next(w1, b, keep);
    UnlinkedAll(w, id, now, keep);
    RunOfOne(w2, c, keep);
    RunsFollow([a], [b], w, keep);
    RunsFollow([a] + [b], [c], w, keep);
    assert [a] + [b] + [c] == [a, b, c];
  }

  /** After the unlink the file is gone and the row marked; only finishing it is left. */
  lemma MarkedAndUnlinked(w: World, id: Id, now: int, keep: nat)
    requires id in w.selected && Purgeable(w.catalog, id) && w.unlinking == map[] && w.finalizing == {}
    requires !Mismatch(w.files, id, w.selected[id])
    ensures Enabled(w, StartPurge(id, now), keep)
    ensures
      var w1 := Next(w, StartPurge(id, now), keep);
      && Enabled(w1, Unlink(id), keep)
      && Next(w1, Unlink(id), keep)
         == w.(catalog := Marked(w.catalog, id, now), selected := Without(w.selected, id),
               files := Without(w.files, id), finalizing := {id})
  {
    var w2 := Next(Next(w, StartPurge(id, now), keep), Unlink(id), keep);
    assert w2.files == Without(w.files, id);
    assert w2.unlinking == map[] && w2.finalizing == {id};
  }

  lemma UnlinkedAll(w: World, id: Id, now: int, keep: nat)
    requires id in w.selected && Purgeable(w.catalog, id) && w.unlinking == map[] && w.finalizing == {}
    requires !Mismatch(w.files, id, w.selected[id])
    ensures
      var w2 := w.(catalog := Marked(w.catalog, id, now), selected := Without(w.selected, id),
                   files := Without(w.files, id), finalizing := {id});
      Enabled(w2, Finalize(id, now), keep) && Next(w2, Finalize(id, now), keep) == Collected(w, id, now)
  {
  }

  lemma CollectStepsRun(w: World, id: Id, now: int, keep: nat)
    requires id in w.selected && Purgeable(w.catalog, id) && w.unlinking == map[] && w.finalizing == {}
    ensures
      var steps := CollectSteps(w.files, id, w.selected[id], now);
      && IsRun(steps, w, keep)
      && After(steps, w, keep) == Collected(w, id, now)
  {
    if Mismatch(w.files, id, w.selected[id]) {
      RunOfOne(w, Skip(id), keep);
    } else {
      PurgeRuns(w, id, now, keep);
    }
  }

  /** A collection that started as `w`, after treating `ids` in order. */
  function CollectedAll(w: World, ids: seq<Id>, now: int): World {
    if ids == [] then w else Collected(CollectedAll(w, ids[..|ids| - 1], now), ids[|ids| - 1], now)
  }

  /** It settles every row it treats. */
  lemma {:induction false} CollectedAllSettles(before: Catalog, w: World, all: set<Id>, ids: seq<Id>, now: int)
    requires Collecting(before, w, all, {}) && SetOf(ids) <= all && |SetOf(ids)| == |ids|
    ensures Collecting(before, CollectedAll(w, ids, now), all, SetOf(ids))
  {
    if ids != [] {
      var init, id := ids[..|ids| - 1], ids[|ids| - 1];
      NotSeenBefore(ids, |init|);
      DistinctPrefix(ids, |init|);
      CollectedAllSettles(before, w, all, init, now);
      CollectingNext(before, CollectedAll(w, init, now), all, SetOf(init), id, now);
    }
  }

  lemma ReadyForNext(before: Catalog, w: World, ids: seq<Id>, i: nat, now: int) returns (at: World)
    requires Collecting(before, w, SetOf(ids), {}) && |SetOf(ids)| == |ids| && i < |ids|
    ensures at == CollectedAll(w, ids[..i], now) && CollectedAll(w, ids[..i + 1], now) == Collected(at, ids[i], now)
    ensures ids[i] in at.selected && Purgeable(at.catalog, ids[i]) && at.selected[ids[i]] == at.catalog[ids[i]].checksum
  {
    at := CollectedAll(w, ids[..i], now);
    NotSeenBefore(ids, i);
    DistinctPrefix(ids, i);
    CollectedAllSettles(before, w, SetOf(ids), ids[..i], now);
    CollectingFacts(before, at, SetOf(ids), SetOf(ids[..i]), ids[i]);
    assert ids[..i + 1][..i] == ids[..i];
  }

  lemma NothingLeft(before: Catalog, w: World, ids: seq<Id>, now: int)
    requires Collecting(before, w, SetOf(ids), {}) && |SetOf(ids)| == |ids|
    ensures
      var w' := CollectedAll(w, ids, now);
      && w' == NEW_WORLD.(catalog := w'.catalog, files := w'.files)
      && AreSettled(before, w'.catalog, w'.files, ids)
  {
    CollectedAllSettles(before, w, SetOf(ids), ids, now);
    assert CollectedAll(w, ids, now).selected == map[];
  }

  /** It is a run of the steps. */
  lemma {:induction false} CollectedAllRuns(before: Catalog, w: World, all: set<Id>, ids: seq<Id>, now: int, keep: nat)
    returns (steps: seq<Step>)
    requires Collecting(before, w, all, {}) && SetOf(ids) <= all && |SetOf(ids)| == |ids|
    ensures IsRun(steps, w, keep) && After(steps, w, keep) == CollectedAll(w, ids, now)
  {
    steps := [];
    if ids != [] {
      var init, id := ids[..|ids| - 1], ids[|ids| - 1];
      NotSeenBefore(ids, |init|);
      DistinctPrefix(ids, |init|);
      steps := CollectedAllRuns(before, w, all, init, now, keep);
      CollectedAllSettles(before, w, all, init, now);
      var w' := CollectedAll(w, init, now);
      CollectingFacts(before, w', all, SetOf(init), id);
      steps := RunGoesOn(steps, w, w', id, now, keep);
    }
  }

  lemma RunGoesOn(steps: seq<Step>, start: World, w: World, id: Id, now: int, keep: nat) returns (steps': seq<Step>)
    requires IsRun(steps, start, keep) && w == After(steps, start, keep)
    requires id in w.selected && Purgeable(w.catalog, id) && w.unlinking == map[] && w.finalizing == {}
    ensures IsRun(steps', start, keep) && After(steps', start, keep) == Collected(w, id, now)
  {
    CollectStepsRun(w, id, now, keep);
    var more := CollectSteps(w.files, id, w.selected[id], now);
    RunsFollow(steps, more, start, keep);
    steps' := steps + more;
  }

  lemma CollectingFacts(before: Catalog, w: World, all: set<Id>, done: set<Id>, id: Id)
    requires Collecting(before, w, all, done) && id in all && id !in done
    ensures id in w.selected && Purgeable(w.catalog, id) && w.selected[id] == w.catalog[id].checksum
    ensures w.unlinking == map[] && w.finalizing == {}
  {
  }

  lemma RunOfOne(w: World, s: Step, keep: nat)
    requires Enabled(w, s, keep)
    ensures IsRun([s], w, keep) && After([s], w, keep) == Next(w, s, keep)
  {
    assert [s][..0] == [];
  }

  class Archive {
    var catalog: Catalog
    var files: map<Id, Checksum>

    /** The archive while no other process is in the middle of something. */
    ghost function Quiet(): World
      reads this
    {
      NEW_WORLD.(catalog := catalog, files := files)
    }

    /** Treat one selected row. The intent is committed before the file goes. */
    method CollectOne(id: Id, expected: Checksum, now: int, ghost w: World)
      requires w.catalog == catalog && w.files == files && Purgeable(catalog, id)
      requires id in w.selected && w.selected[id] == expected
      modifies this
      ensures catalog == Collected(w, id, now).catalog && files == Collected(w, id, now).files
    {
      if id in files && files[id] != expected {
        return;
      }
      catalog := Marked(catalog, id, now);
      files := Deleted(files, id, expected);
      if id !in files {
        Finalize(id, now);
      }
    }

    method Finalize(id: Id, now: int)
      requires id in catalog
      modifies this`catalog
      ensures catalog == if Purgeable(old(catalog), id) && old(catalog)[id].purgeStartedAt.Some?
                         then old(catalog)[id := old(catalog)[id].(purgedAt := Some(now), updatedAt := now)]
                         else old(catalog)
    {
      var row := catalog[id];
      if !row.active && row.purgeStartedAt.Some? && row.purgedAt.None? {
        catalog := catalog[id := row.(purgedAt := Some(now), updatedAt := now)];
      }
    }

    /** One collection. It is a run of the steps above, so it keeps all they keep; it settles the first `limit`
        collectable rows and no other, and when the interrupted purges fit in the limit, none of them is left
        unfinished. */
    method PruneSuperseded(minAge: int, keep: nat, limit: nat, dryRun: bool, now: int)
      returns (ghost steps: seq<Step>, ghost ids: seq<Id>)
      requires Invariant(Quiet(), keep)
      modifies this
      ensures IsRun(steps, old(Quiet()), keep) && Quiet() == After(steps, old(Quiet()), keep)
      ensures Invariant(Quiet(), keep)
      ensures dryRun ==> catalog == old(catalog) && files == old(files)
      ensures IsPurgeSelection(old(catalog), keep, minAge, now, limit, ids)
      ensures !dryRun ==> AreSettled(old(catalog), catalog, files, ids)
      ensures !dryRun && |Interrupted(old(catalog))| <= limit ==>
                forall x | x in Interrupted(old(catalog)) :: Settled(catalog, files, x, old(catalog)[x].checksum)
    {
      steps, ids := [], [];
      if limit == 0 {
        NothingInterrupted(catalog);
        return;
      }
      var selected := SelectForPurge(catalog, keep, minAge, now, limit);
      ids := selected;
      if dryRun {
        return;
      }
      ghost var start, select := Quiet(), Select(SetOf(ids), minAge, now);
      ghost var w := CollectionStarts(start, SetOf(ids), minAge, now, keep);
      ghost var more := CollectAll(selected, now, w, keep);
      RunsFollow([select], more, start, keep);
      steps := [select] + more;
      RunKeepsInvariant(steps, start, keep);
      if |Interrupted(start.catalog)| <= limit {
        InterruptedAreSelected(start.catalog, keep, minAge, now, limit, ids);
      }
    }

    method CollectAll(ids: seq<Id>, now: int, ghost w: World, ghost keep: nat) returns (ghost steps: seq<Step>)
      requires w.catalog == catalog && w.files == files && Collecting(catalog, w, SetOf(ids), {})
               && |SetOf(ids)| == |ids|
      modifies this
      ensures IsRun(steps, w, keep) && Quiet() == After(steps, w, keep)
      ensures AreSettled(old(catalog), catalog, files, ids)
    {
      for i := 0 to |ids|
        invariant catalog == CollectedAll(w, ids[..i], now).catalog && files == CollectedAll(w, ids[..i], now).files
      {
        ghost var at := ReadyForNext(old(catalog), w, ids, i, now);
        CollectOne(ids[i], catalog[ids[i]].checksum, now, at);
      }
      assert ids[..|ids|] == ids;
      steps := CollectedAllRuns(old(catalog), w, SetOf(ids), ids, now, keep);
      NothingLeft(old(catalog), w, ids, now);
    }
  }

  lemma NothingInterrupted(c: Catalog)
    ensures |Interrupted(c)| <= 0 ==> Interrupted(c) == {}
  {
  }
}
