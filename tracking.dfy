/**
 * The abstract TrackingModel of helpers/models.py: two timestamps filled
 * in by the database layer, and the default listing order.
 */
module Tracking {

  /** Instants are modelled as integers (for instance microseconds since an epoch). */
  type Instant = int

  datatype Stamps = Stamps(createdAt: Instant, updatedAt: Instant)

  /**
   * What `pre_save` of a `DateTimeField(auto_now_add=True)` writes into a
   * record: on the first insert (`add`) the current time, on any later save
   * the value the record already holds. Both fields are declared this way,
   * so `updatedAt` is not refreshed by later saves either.
   */
  function PreSave(current: Stamps, add: bool, now: Instant): (r: Stamps)
    ensures add ==> r.createdAt == now && r.updatedAt == now
    ensures !add ==> r == current
  {
    if add then Stamps(now, now) else current
  }

  /** The stamps after a first insert at `inserted` and later saves at `saves`. */
  function AfterSaves(initial: Stamps, inserted: Instant, saves: seq<Instant>): Stamps
  {
    if saves == [] then PreSave(initial, true, inserted)
    else PreSave(AfterSaves(initial, inserted, saves[..|saves| - 1]), false, saves[|saves| - 1])
  }

  /** However many saves follow the insert, both stamps keep the insert time. */
  lemma {:induction false} SavesKeepInsertTime(initial: Stamps, inserted: Instant, saves: seq<Instant>)
    ensures AfterSaves(initial, inserted, saves) == Stamps(inserted, inserted)
  {
    if saves != [] {
      SavesKeepInsertTime(initial, inserted, saves[..|saves| - 1]);
    }
  }

  // ---- default ordering: Meta.ordering = ("-created_at",) -------------------

  /** A listing is in default order when `createdAt` never increases along it. */
  predicate NewestFirst<T>(s: seq<T>, stamps: T -> Stamps)
  {
    forall i, j :: 0 <= i < j < |s| ==> stamps(s[i]).createdAt >= stamps(s[j]).createdAt
  }

  /** Places `x` into a listing that is already newest first. */
  function InsertNewestFirst<T>(x: T, s: seq<T>, stamps: T -> Stamps): (r: seq<T>)
    requires NewestFirst(s, stamps)
    ensures multiset(r) == multiset(s) + multiset{x}
    ensures NewestFirst(r, stamps)
  {
    if s == [] then [x]
    else if stamps(x).createdAt >= stamps(s[0]).createdAt then [x] + s
    else
      var rest := InsertNewestFirst(x, s[1..], stamps);
      assert s == [s[0]] + s[1..];
      assert forall k :: 0 <= k < |rest| ==> rest[k] in multiset(s[1..]) + multiset{x};
      [s[0]] + rest
  }

  /** The records of `s` in the default listing order. */
  function OrderNewestFirst<T>(s: seq<T>, stamps: T -> Stamps): (r: seq<T>)
    ensures multiset(r) == multiset(s)
    ensures NewestFirst(r, stamps)
  {
    if s == [] then []
    else
      assert s == [s[0]] + s[1..];
      InsertNewestFirst(s[0], OrderNewestFirst(s[1..], stamps), stamps)
  }
}
