/**
 * The queued low-stock job (`SendLowStockNotification`). The cache is a map from product id to the
 * expiry time of its `low_stock_sent_{id}` marker, the mail queue an outbox, the clock a parameter
 * in seconds, and the admin lookup the list of admin addresses it returns.
 */
module LowStockNotification {
  import opened Inventory

  /** `now()->addDay()`: the marker lives one day. */
  const MARKER_TTL: int := 86400

  datatype LowStockJob = LowStockJob(productId: nat)

  datatype LowStockAlert = LowStockAlert(to: string, productId: nat)

  /** The job is worth queueing exactly when the product is low on stock. */
  function ShouldQueue(p: Product, globalThreshold: int): (queue: bool)
    ensures queue <==> p.stock < LowStockThreshold(p, globalThreshold)
  {
    IsLowStock(p, globalThreshold)
  }

  /** `Cache::has`: the marker exists and has not expired yet. */
  predicate MarkerLive(markers: map<nat, int>, productId: nat, now: int) {
    productId in markers && now < markers[productId]
  }

  /** One alert per admin address, in the order the admins are returned. */
  function AlertsFor(admins: seq<string>, productId: nat): (r: seq<LowStockAlert>)
    ensures |r| == |admins|
    ensures forall i :: 0 <= i < |admins| ==> r[i] == LowStockAlert(admins[i], productId)
  {
    if admins == [] then [] else AlertsFor(admins[..|admins| - 1], productId) + [LowStockAlert(admins[|admins| - 1], productId)]
  }

  /** What a run at `now` sends: nothing while the marker is live, one alert per admin otherwise. */
  function AlertsSent(markers: map<nat, int>, productId: nat, now: int, admins: seq<string>): seq<LowStockAlert> {
    if MarkerLive(markers, productId, now) then [] else AlertsFor(admins, productId)
  }

  /** The markers after a run at `now`: unchanged while live, otherwise set to expire a day later. */
  function MarkersAfter(markers: map<nat, int>, productId: nat, now: int): map<nat, int> {
    if MarkerLive(markers, productId, now) then markers else markers[productId := now + MARKER_TTL]
  }

  /** The number of alerts addressed to `to`. */
  function AlertsTo(mails: seq<LowStockAlert>, to: string): nat {
    if mails == [] then 0
    else AlertsTo(mails[..|mails| - 1], to) + (if mails[|mails| - 1].to == to then 1 else 0)
  }

  /** A run that sends mails every admin (addresses distinct) exactly one alert, and no one else any. */
  lemma {:induction false} EachAdminAlertedOnce(admins: seq<string>, productId: nat, to: string)
    requires forall i, j :: 0 <= i < j < |admins| ==> admins[i] != admins[j]
    ensures AlertsTo(AlertsFor(admins, productId), to) == if to in admins then 1 else 0
  {
    if admins != [] {
      var prefix := admins[..|admins| - 1];
      EachAdminAlertedOnce(prefix, productId, to);
      assert AlertsFor(admins, productId) == AlertsFor(prefix, productId) + [LowStockAlert(admins[|admins| - 1], productId)];
      assert AlertsFor(admins, productId)[..|admins| - 1] == AlertsFor(prefix, productId);
      assert admins == prefix + [admins[|admins| - 1]];
      if to == admins[|admins| - 1] {
        assert to !in prefix;
      }
    }
  }

  /** A live marker suppresses the run entirely. */
  lemma LiveMarkerSuppresses(markers: map<nat, int>, productId: nat, now: int, admins: seq<string>)
    requires MarkerLive(markers, productId, now)
    ensures AlertsSent(markers, productId, now, admins) == []
    ensures MarkersAfter(markers, productId, now) == markers
  {
  }

  /** A sending run leaves a marker that expires exactly one day later. */
  lemma SendingRunSetsMarker(markers: map<nat, int>, productId: nat, now: int, admins: seq<string>)
    requires !MarkerLive(markers, productId, now)
    ensures AlertsSent(markers, productId, now, admins) == AlertsFor(admins, productId)
    ensures MarkersAfter(markers, productId, now)[productId] == now + MARKER_TTL
  {
  }

  /** Of two runs for one product less than a day apart, at most one sends anything. */
  lemma TwoRunsWithinADaySendOnce(markers: map<nat, int>, productId: nat, first: int, second: int, admins: seq<string>)
    requires first <= second < first + MARKER_TTL
    ensures AlertsSent(markers, productId, first, admins) == []
         || AlertsSent(MarkersAfter(markers, productId, first), productId, second, admins) == []
  {
    if !MarkerLive(markers, productId, first) {
      assert MarkerLive(MarkersAfter(markers, productId, first), productId, second);
    }
  }

  /** Markers are per product: a run for one product leaves every other product's marker alone. */
  lemma OtherMarkersUntouched(markers: map<nat, int>, productId: nat, now: int, other: nat)
    requires other != productId
    ensures other in MarkersAfter(markers, productId, now) <==> other in markers
    ensures other in markers ==> MarkersAfter(markers, productId, now)[other] == markers[other]
  {
  }

  /**
   * Suppression is purely time-based: once the clock reaches the expiry, the next run sends again,
   * whatever happened to the product's stock in between.
   */
  lemma ExpiredMarkerSendsAgain(markers: map<nat, int>, productId: nat, first: int, later: int, admins: seq<string>)
    requires !MarkerLive(markers, productId, first)
    requires first + MARKER_TTL <= later
    ensures AlertsSent(MarkersAfter(markers, productId, first), productId, later, admins) == AlertsFor(admins, productId)
  {
  }

  /** The cache markers and the outgoing mail queue. */
  class Notifier {
    var markers: map<nat, int>
    var outbox: seq<LowStockAlert>

    constructor ()
      ensures markers == map[] && outbox == []
    {
      markers := map[];
      outbox := [];
    }

    /** Run the job for `job.productId` at time `now`, with `admins` the admin addresses. */
    method Handle(job: LowStockJob, now: int, admins: seq<string>)
      modifies this
      ensures markers == MarkersAfter(old(markers), job.productId, now)
      ensures outbox == old(outbox) + AlertsSent(old(markers), job.productId, now, admins)
    {
      if MarkerLive(markers, job.productId, now) {
        return;
      }
      var i := 0;
      while i < |admins|
        invariant 0 <= i <= |admins|
        invariant markers == old(markers)
        invariant outbox == old(outbox) + AlertsFor(admins[..i], job.productId)
      {
        outbox := outbox + [LowStockAlert(admins[i], job.productId)];
        assert admins[..i + 1][..i] == admins[..i];
        i := i + 1;
      }
      assert admins[..i] == admins;
      markers := markers[job.productId := now + MARKER_TTL];
    }
  }
}
