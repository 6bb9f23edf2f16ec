/** The delivery adapter: a lock-protected dictionary that deduplicates by delivery id. */
module Adapter {
  import opened Money

  /** X-Idempotency-Key, or the invoice when the header is missing. */
  datatype DeliveryId = Keyed(event: nat) | Unkeyed(invoice: nat)

  datatype Request = Request(invoice: nat, payload: nat, key: Option<nat>)

  /** The hash of the payload is treated as the payload. */
  datatype Delivery = Delivery(invoice: nat, payload: nat, deliveredAt: nat, accepted: nat, duplicates: nat)

  datatype Reply = Delivered(invoice: nat, deliveredAt: nat, deduplicated: bool) | Conflict

  function IdOf(r: Request): DeliveryId {
    if r.key.Some? then Keyed(r.key.value) else Unkeyed(r.invoice)
  }

  /** One request against what is recorded under its id. */
  function Receive(existing: Option<Delivery>, r: Request, now: nat): (Delivery, Reply) {
    match existing
    case None => (Delivery(r.invoice, r.payload, now, 1, 0), Delivered(r.invoice, now, false))
    case Some(d) =>
      if d.payload != r.payload || d.invoice != r.invoice then (d, Conflict)
      else (d.(duplicates := d.duplicates + 1), Delivered(d.invoice, d.deliveredAt, true))
  }

  function Lookup(m: map<DeliveryId, Delivery>, id: DeliveryId): Option<Delivery> {
    if id in m then Some(m[id]) else None
  }

  datatype Call = Call(request: Request, now: nat)

  function After(calls: seq<Call>): map<DeliveryId, Delivery> {
    if calls == [] then map[]
    else
      var m, c := After(calls[..|calls| - 1]), calls[|calls| - 1];
      var id := IdOf(c.request);
      m[id := Receive(Lookup(m, id), c.request, c.now).0]
  }

  function ReplyTo(calls: seq<Call>, n: nat): Reply
    requires n < |calls|
  {
    var m := After(calls[..n]);
    Receive(Lookup(m, IdOf(calls[n].request)), calls[n].request, calls[n].now).1
  }

  /** Deduplication without the dictionary: the first call with an id decides, and later ones are
      answered from it or refused. */
  ghost predicate First(calls: seq<Call>, f: nat, id: DeliveryId) {
    && f < |calls| && IdOf(calls[f].request) == id
    && forall m :: 0 <= m < f ==> IdOf(calls[m].request) != id
  }

  /** The calls that carry a given delivery. */
  function Count(calls: seq<Call>, id: DeliveryId, invoice: nat, payload: nat): nat {
    if calls == [] then 0
    else
      var r := calls[|calls| - 1].request;
      Count(calls[..|calls| - 1], id, invoice, payload)
      + if IdOf(r) == id && r.invoice == invoice && r.payload == payload then 1 else 0
  }

  /** What is recorded under an id: the first call, accepted once, and how often it was repeated. */
  ghost predicate Recorded(calls: seq<Call>, f: nat, d: Delivery)
    requires f < |calls|
  {
    var first := calls[f];
    && d.invoice == first.request.invoice && d.payload == first.request.payload && d.deliveredAt == first.now
    && d.accepted == 1 && d.accepted + d.duplicates == Count(calls, IdOf(first.request), d.invoice, d.payload)
  }

  lemma {:induction false} FirstCallDecides(calls: seq<Call>, id: DeliveryId)
    ensures id in After(calls) <==> exists f: nat :: First(calls, f, id)
    ensures id !in After(calls) ==> forall invoice, payload :: Count(calls, id, invoice, payload) == 0
    ensures forall f: nat :: First(calls, f, id) ==> Recorded(calls, f, After(calls)[id])
  {
    if calls != [] {
      var n := |calls| - 1;
      FirstCallDecides(calls[..n], id);
      forall f: nat | f < n ensures First(calls, f, id) <==> First(calls[..n], f, id) {
        assert calls[..n][f] == calls[f];
      }
      FirstExists(calls[..n], id);
      assert First(calls, n, id) <==> IdOf(calls[n].request) == id && !(exists f: nat :: First(calls[..n], f, id)) by {
        assert forall m :: 0 <= m < n ==> calls[..n][m] == calls[m];
      }
      forall f: nat | First(calls, f, id) ensures Recorded(calls, f, After(calls)[id]) {
        if f < n {
          assert Recorded(calls[..n], f, After(calls[..n])[id]);
          assert calls[..n][f] == calls[f];
        } else {
          assert f == n && id !in After(calls[..n]);
        }
      }
    }
  }

  lemma {:induction false} FirstExists(calls: seq<Call>, id: DeliveryId)
    ensures (exists f: nat :: First(calls, f, id)) <==> exists m :: 0 <= m < |calls| && IdOf(calls[m].request) == id
  {
    if m :| 0 <= m < |calls| && IdOf(calls[m].request) == id {
      FirstExists(calls[..m], id);
      if f: nat :| First(calls[..m], f, id) {
        assert First(calls, f, id);
      } else {
        assert forall g :: 0 <= g < m ==> calls[..m][g] == calls[g];
        assert First(calls, m, id);
      }
    }
  }

  /** Every call is accepted, deduplicated against the first call with its id, or refused because
      that first call carried something else; the answer repeats the first answer. */
  lemma RepliesFollowTheFirst(calls: seq<Call>, n: nat, f: nat)
    requires n < |calls| && First(calls, f, IdOf(calls[n].request))
    ensures f <= n
    ensures var r, first := calls[n].request, calls[f];
            ReplyTo(calls, n) ==
              if r.payload == first.request.payload && r.invoice == first.request.invoice
              then Delivered(r.invoice, first.now, n != f) else Conflict
  {
    var id := IdOf(calls[n].request);
    FirstCallDecides(calls[..n], id);
    assert forall m :: 0 <= m < n ==> calls[..n][m] == calls[m];
    if f < n { assert First(calls[..n], f, id); }
  }

  /** receive_invoice and its dictionary. */
  class Stub {
    var deliveries: map<DeliveryId, Delivery>

    constructor ()
      ensures deliveries == After([])
    {
      deliveries := map[];
    }

    method ReceiveInvoice(r: Request, now: nat, ghost calls: seq<Call>) returns (reply: Reply)
      requires deliveries == After(calls)
      modifies this
      ensures deliveries == After(calls + [Call(r, now)])
      ensures reply == ReplyTo(calls + [Call(r, now)], |calls|)
    {
      assert (calls + [Call(r, now)])[..|calls|] == calls;
      var id := if r.key.Some? then Keyed(r.key.value) else Unkeyed(r.invoice);
      if id in deliveries {
        var existing := deliveries[id];
        if existing.payload != r.payload || existing.invoice != r.invoice {
          assert deliveries == deliveries[id := existing];
          return Conflict;
        }
        deliveries := deliveries[id := existing.(duplicates := existing.duplicates + 1)];
        return Delivered(existing.invoice, existing.deliveredAt, true);
      }
      deliveries := deliveries[id := Delivery(r.invoice, r.payload, now, 1, 0)];
      return Delivered(r.invoice, now, false);
    }
  }
}
