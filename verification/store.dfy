/**
 * `ReceiptStore` of types.go: a table from receipt id to points, with
 * insert-or-overwrite and lookup-with-presence-flag.  The store is a value;
 * an operation that changes it returns the new store.
 */
module Store {
  import opened Wrappers

  datatype ReceiptStore = ReceiptStore(receipts: map<string, int>)

  /** The `(points, found)` pair `GetPoints` returns. */
  datatype Lookup = Lookup(points: int, found: bool)

  /**
   * `GetPoints`: the stored points and `true`, or Go's zero value `0` and
   * `false` when no receipt has that id.
   */
  function GetPoints(store: ReceiptStore, id: string): (r: Lookup)
    ensures r.found <==> id in store.receipts
    ensures r.found ==> r.points == store.receipts[id]
    ensures !r.found ==> r.points == 0
  {
    if id in store.receipts then Lookup(store.receipts[id], true) else Lookup(0, false)
  }

  /** `NewReceiptStore`: a store in which no id is found. */
  function NewReceiptStore(): (store: ReceiptStore)
    ensures forall id :: GetPoints(store, id) == Lookup(0, false)
  {
    ReceiptStore(map[])
  }

  /**
   * `AddReceipt`: afterwards `id` reads back `points`, whatever it held
   * before, and every other id reads back what it did before.
   */
  function AddReceipt(store: ReceiptStore, id: string, points: int): (store': ReceiptStore)
    ensures GetPoints(store', id) == Lookup(points, true)
    ensures forall other :: other != id ==> GetPoints(store', other) == GetPoints(store, other)
    ensures id in store.receipts ==> |store'.receipts| == |store.receipts|
    ensures id !in store.receipts ==> |store'.receipts| == |store.receipts| + 1
  {
    ReceiptStore(store.receipts[id := points])
  }

  /** A submission: the id the boundary generated and the points it computed. */
  datatype Submission = Submission(id: string, points: int)

  /** The store after the given submissions, applied in order to a new store. */
  function Replay(submissions: seq<Submission>): ReceiptStore {
    if |submissions| == 0 then NewReceiptStore()
    else
      var last := submissions[|submissions| - 1];
      AddReceipt(Replay(submissions[..|submissions| - 1]), last.id, last.points)
  }

  /** The points of the latest submission with the given id, if there is one. */
  function LatestPoints(submissions: seq<Submission>, id: string): Option<int> {
    if |submissions| == 0 then None
    else if submissions[|submissions| - 1].id == id then Some(submissions[|submissions| - 1].points)
    else LatestPoints(submissions[..|submissions| - 1], id)
  }

  /**
   * Read-after-write: after any sequence of submissions, an id reads back the
   * points of its latest submission, and is not found if it was never submitted.
   */
  lemma {:induction false} ReplayReadsLatest(submissions: seq<Submission>, id: string)
    ensures GetPoints(Replay(submissions), id) ==
              match LatestPoints(submissions, id)
              case Some(p) => Lookup(p, true)
              case None => Lookup(0, false)
  {
    if |submissions| > 0 {
      ReplayReadsLatest(submissions[..|submissions| - 1], id);
    }
  }

  /** Later submissions under other ids leave an id's points as they were. */
  lemma {:induction false} LaterSubmissionsIndependent(earlier: seq<Submission>, later: seq<Submission>, id: string)
    requires forall k :: 0 <= k < |later| ==> later[k].id != id
    ensures GetPoints(Replay(earlier + later), id) == GetPoints(Replay(earlier), id)
    decreases |later|
  {
    if |later| == 0 {
      assert earlier + later == earlier;
    } else {
      var all := earlier + later;
      assert all[..|all| - 1] == earlier + later[..|later| - 1];
      assert all[|all| - 1] == later[|later| - 1];
      LaterSubmissionsIndependent(earlier, later[..|later| - 1], id);
    }
  }

  /** Adding the same id twice keeps only the second value. */
  lemma AddReceiptOverwrites(store: ReceiptStore, id: string, first: int, second: int)
    ensures AddReceipt(AddReceipt(store, id, first), id, second) == AddReceipt(store, id, second)
  {
  }
}
