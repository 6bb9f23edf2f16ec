/** The idempotency keys around every write endpoint: a key is inserted as PROCESSING, completed
    with the response, and committed in the same transaction as the handler's own rows. */
module Idempotency {
  import opened Money
  import opened Books
  import opened Commands
  import Interleaving
  import Ledgers

  /** The endpoint a key is scoped to, for one tenant and entity. */
  datatype Endpoint =
    | PostInvoices | PatchInvoices(i: nat) | ApproveInvoices(i: nat) | PostPayments
    | CreditMemos(i: nat) | WriteOffs(i: nat) | Voids(i: nat)

  /** A write request by `user`.  The books depend on its command only; `details` is what else of the
      payload the hash covers (references, reason codes, descriptions), and `remarks` what it leaves
      out: description, notes and reference of a write-off or void, rejection reason and notes of an
      approval or rejection.  Other endpoints have no remarks, and approvals no details. */
  datatype Request = Request(key: nat, user: nat, details: nat, remarks: nat, command: Command)

  predicate HasRemarks(c: Command) { c.Approve? || c.Reject? || c.WriteOff? || c.VoidInvoice? }

  /** The fields the SHA-256 is taken over; the digest itself is treated as injective. */
  datatype Hash =
    | Payload(details: nat, customer: nat, currency: string, items: seq<LineTotals>, dueDate: int)
    | Change(i: nat, details: nat, newCurrency: Option<string>, newItems: Option<seq<LineTotals>>, dueDate: int)
    | Approval(i: nat, user: nat)
    | Receipt(details: nat, customer: nat, currency: string, amount: nat, manual: Option<seq<Item>>)
    | MemoOf(i: nat, details: nat, amount: nat, includeTax: bool)
    | Reason(i: nat, details: nat, user: nat)

  function EndpointOf(c: Command): Endpoint
    requires !c.Deliver?
  {
    match c
    case Create(_, _, _, _, _, _, _) => PostInvoices
    case Patch(i, _, _, _, _, _, _) => PatchInvoices(i)
    case Approve(i, _, _) => ApproveInvoices(i)
    case Reject(i, _, _) => ApproveInvoices(i)
    case Pay(_, _, _, _, _) => PostPayments
    case Credit(i, _, _, _) => CreditMemos(i)
    case WriteOff(i) => WriteOffs(i)
    case VoidInvoice(i) => Voids(i)
  }

  function HashOf(r: Request): Hash
    requires !r.command.Deliver?
  {
    match r.command
    case Create(_, customer, currency, _, items, dueDate, _) => Payload(r.details, customer, currency, items, dueDate)
    case Patch(i, _, newCurrency, _, newItems, dueDate, _) => Change(i, r.details, newCurrency, newItems, dueDate)
    case Approve(i, _, _) => Approval(i, r.user)
    case Reject(i, _, _) => Approval(i, r.user)
    case Pay(customer, currency, _, amount, Auto(_)) => Receipt(r.details, customer, currency, amount, None)
    case Pay(customer, currency, _, amount, Manual(items)) => Receipt(r.details, customer, currency, amount, Some(items))
    case Credit(i, _, amount, includeTax) => MemoOf(i, r.details, amount, includeTax)
    case WriteOff(i) => Reason(i, r.details, r.user)
    case VoidInvoice(i) => Reason(i, r.details, r.user)
  }

  /** The response body is built from the rows the handler wrote, and repeats the remarks. */
  datatype Response = Response(code: nat, rows: seq<Invoice>, entries: seq<Entry>, remarks: Option<nat>)

  function ResponseTo(b: Books, r: Request, b': Books): Response {
    var c := r.command;
    Response(if c.Create? || c.Pay? || c.Credit? || c.WriteOff? then 201 else 200,
             if c.Create? && |b'.invoices| > |b.invoices| then [b'.invoices[|b.invoices|]]
             else if c.Create? || c.Pay? || c.i >= |b'.invoices| then [] else [b'.invoices[c.i]],
             if |b.journal| <= |b'.journal| then b'.journal[|b.journal|..] else [],
             if HasRemarks(c) then Some(r.remarks) else None)
  }

  datatype Progress = Processing | Completed(response: Response)
  datatype Record = Record(hash: Hash, progress: Progress)
  datatype Id = Id(endpoint: Endpoint, key: nat)
  type Keys = map<Id, Record>

  function IdOf(r: Request): Id
    requires !r.command.Deliver?
  {
    Id(EndpointOf(r.command), r.key)
  }

  datatype Answer =
    | Answered(response: Response)
    | Refused(error: Error)
    | KeyReused          // IDEMPOTENCY_KEY_REUSED
    | InProgress         // REQUEST_IN_PROGRESS
    | Working            // accepted, still running

  /** check_idempotency: None lets the request through. */
  function Check(keys: Keys, id: Id, hash: Hash): Option<Answer> {
    if id !in keys then None
    else if keys[id].hash != hash then Some(KeyReused)
    else match keys[id].progress
         case Completed(p) => Some(Answered(p))
         case Processing => Some(InProgress)
  }

  /** The committed tables with the reads in flight, and the requests whose transactions are open. */
  datatype Service = Service(world: Interleaving.World, keys: Keys, open: map<nat, Request>)

  datatype Event =
    | Arrive(txn: nat, request: Request)  // the first check
    | Read(txn: nat)                      // the handler's SELECT
    | Look(txn: nat)                      // its exposure query
    | Proceed(txn: nat)                   // insert the key, work, complete the key, commit
    | Crash(txn: nat)
    | Background(i: nat, now: nat)

  /** What the handler of an open request comes to, from the reads it has made. */
  function Outcome(w: Interleaving.World, t: nat, c: Command): Result<Books> {
    if !Interleaving.TwoPhase(c) then Step(w.books, c)
    else if t in w.inFlight then Interleaving.Concluded(w.books, w.inFlight[t])
    else if c.Patch? && c.newItems == Some([]) then Err(InvalidRequest)
    else Err(NotFound)
  }

  /** The key and the answer at the end of a handler.  Its PROCESSING row is never committed on its
      own: it is completed, or it goes with the transaction.  A key that has come in meanwhile violates
      idempotency_scope_unique, unless the handler was refused before it got to insert its own. */
  function Conclude(b: Books, keys: Keys, r: Request, result: Result<Books>): (Keys, Answer)
    requires !r.command.Deliver?
  {
    var id, hash := IdOf(r), HashOf(r);
    // create_credit_memo checks again once it holds the invoice row
    if r.command.Credit? && Check(keys, id, hash).Some? then (keys, Check(keys, id, hash).value)
    else match result
         case Err(e) => (keys, Refused(e))
         case Ok(b') =>
           if id in keys then (keys, Refused(ConstraintViolation)) else
           var response := ResponseTo(b, r, b');
           (keys[id := Record(hash, Completed(response))], Answered(response))
  }

  predicate Commits(s: Service, e: Event) {
    && e.Proceed? && e.txn in s.open && !s.open[e.txn].command.Deliver?
    && IdOf(s.open[e.txn]) !in s.keys && Outcome(s.world, e.txn, s.open[e.txn].command).Ok?
  }

  /** What an event of the service is for the ledger's transactions. */
  function Traced(s: Service, e: Event): (traced: seq<Interleaving.Event>)
    ensures |traced| <= 1
  {
    match e
    case Arrive(_, _) => []
    case Read(t) => if t in s.open then [Interleaving.Begin(t, s.open[t].command)] else []
    case Look(t) => [Interleaving.Look(t)]
    case Proceed(t) =>
      if t !in s.open || s.open[t].command.Deliver? then []
      else if !Commits(s, e) then [Interleaving.Abort(t)]
      else if Interleaving.TwoPhase(s.open[t].command) then [Interleaving.Finish(t)]
      else [Interleaving.Atomic(s.open[t].command)]
    case Crash(t) => [Interleaving.Abort(t)]
    case Background(i, now) => [Interleaving.Atomic(Deliver(i, now))]
  }

  function Follow(w: Interleaving.World, events: seq<Interleaving.Event>): Interleaving.World
    requires |events| <= 1
  {
    if events == [] then w else Interleaving.Next(w, events[0])
  }

  function Next(s: Service, e: Event): (Service, Answer) {
    var world := Follow(s.world, Traced(s, e));
    match e
    case Arrive(t, r) =>
      if r.command.Deliver? || t in s.open then (s, Refused(InvalidRequest))
      else
        var found := Check(s.keys, IdOf(r), HashOf(r));
        if found.Some? then (s, found.value) else (s.(open := s.open[t := r]), Working)
    case Proceed(t) =>
      if t !in s.open || s.open[t].command.Deliver? then (s, Refused(NotFound))
      else
        var r := s.open[t];
        var (keys, a) := Conclude(s.world.books, s.keys, r, Outcome(s.world, t, r.command));
        (Service(world, keys, s.open - {t}), a)
    case Crash(t) => (Service(world, s.keys, s.open - {t}), Working)
    case _ => (s.(world := world), Working)
  }

  function Services(s: Service, events: seq<Event>): Service {
    if events == [] then s
    else Next(Services(s, events[..|events| - 1]), events[|events| - 1]).0
  }

  // ---- Keys ----

  ghost predicate AllCompleted(keys: Keys) {
    forall id :: id in keys ==> keys[id].progress.Completed?
  }

  ghost predicate Extends(keys: Keys, keys': Keys) {
    forall id :: id in keys ==> id in keys' && keys'[id] == keys[id]
  }

  /** The id an event may answer for. */
  function Subject(s: Service, e: Event): Option<Id> {
    match e
    case Arrive(_, r) => if r.command.Deliver? then None else Some(IdOf(r))
    case Proceed(t) => if t in s.open && !s.open[t].command.Deliver? then Some(IdOf(s.open[t])) else None
    case _ => None
  }

  /** One event: a key is stored only together with the handler's commit, and only the response
      stored is ever answered. */
  lemma NextKeepsKeys(s: Service, e: Event)
    requires AllCompleted(s.keys)
    ensures AllCompleted(Next(s, e).0.keys) && Extends(s.keys, Next(s, e).0.keys)
    ensures var (s', a) := Next(s, e);
            && a != InProgress
            && (a.Answered? ==>
                  && Subject(s, e).Some? && Subject(s, e).value in s'.keys
                  && s'.keys[Subject(s, e).value].progress == Completed(a.response))
            && (Subject(s, e).Some? && Subject(s, e).value in s.keys ==>
                  s'.world.books == s.world.books && s'.keys == s.keys)
  {
    hide Step, ResponseTo, Interleaving.Concluded, Interleaving.Summed;
  }

  lemma {:induction false} KeysAreWriteOnce(s: Service, events: seq<Event>)
    requires AllCompleted(s.keys)
    ensures AllCompleted(Services(s, events).keys) && Extends(s.keys, Services(s, events).keys)
  {
    hide Next;
    if events != [] {
      var n := |events| - 1;
      KeysAreWriteOnce(s, events[..n]);
      NextKeepsKeys(Services(s, events[..n]), events[n]);
    }
  }

  // ---- Main results ----

  /** What the stored record answers to a request with its key. */
  function Replay(record: Record, hash: Hash): Answer
    requires record.progress.Completed?
  {
    if hash == record.hash then Answered(record.progress.response) else KeyReused
  }

  /** Safe replay, over any later trace: the same request gets the stored response, a changed one
      is refused, and neither touches the books - even one whose check had already passed. */
  lemma ReplayIsSafe(s: Service, events: seq<Event>, r: Request, t: nat)
    requires AllCompleted(s.keys) && !r.command.Deliver? && IdOf(r) in s.keys
    ensures var later := Services(s, events);
            && (t !in later.open ==>
                  Next(later, Arrive(t, r)) == (later, Replay(s.keys[IdOf(r)], HashOf(r))))
            && (t in later.open && later.open[t] == r ==>
                  var (after, a) := Next(later, Proceed(t));
                  && after.world.books == later.world.books && after.keys == later.keys
                  && if r.command.Credit? then a == Replay(s.keys[IdOf(r)], HashOf(r))
                     else a.Refused? && (Outcome(later.world, t, r.command).Ok? ==> a == Refused(ConstraintViolation)))
  {
    KeysAreWriteOnce(s, events);
    hide Step, Services, Interleaving.Concluded, Interleaving.Summed;
  }

  /** Two answers to one key, however far apart and whatever happened in between, are the same. */
  lemma AnswersAgree(s: Service, first: Event, between: seq<Event>, second: Event)
    requires AllCompleted(s.keys)
    requires var s1 := Next(s, first).0; var s2 := Services(s1, between);
             && Subject(s, first).Some? && Subject(s2, second) == Subject(s, first)
             && Next(s, first).1.Answered? && Next(s2, second).1.Answered?
    ensures var s1 := Next(s, first).0; var s2 := Services(s1, between);
            && Next(s, first).1 == Next(s2, second).1
            && Next(s2, second).0.world.books == s2.world.books
  {
    hide Next;
    NextKeepsKeys(s, first);
    var s1 := Next(s, first).0;
    KeysAreWriteOnce(s1, between);
    NextKeepsKeys(Services(s1, between), second);
  }

  /** The requests a trace commits, in order. */
  function Committed(s: Service, events: seq<Event>): seq<Request> {
    if events == [] then []
    else
      var before, e := Services(s, events[..|events| - 1]), events[|events| - 1];
      Committed(s, events[..|events| - 1]) + if Commits(before, e) then [before.open[e.txn]] else []
  }

  /** Everything the ledger's transactions did meanwhile. */
  function Trace(s: Service, events: seq<Event>): seq<Interleaving.Event> {
    if events == [] then []
    else
      var earlier := events[..|events| - 1];
      Trace(s, earlier) + Traced(Services(s, earlier), events[|events| - 1])
  }

  ghost predicate OnePerKey(s: Service, committed: seq<Request>, keys: Keys) {
    && (forall n :: 0 <= n < |committed| ==>
          && !committed[n].command.Deliver?
          && IdOf(committed[n]) in keys && IdOf(committed[n]) !in s.keys
          && keys[IdOf(committed[n])].hash == HashOf(committed[n]))
    && (forall m, n :: 0 <= m < n < |committed| ==> IdOf(committed[m]) != IdOf(committed[n]))
    && (forall id :: id in keys <==> id in s.keys || exists n :: 0 <= n < |committed| && IdOf(committed[n]) == id)
  }

  lemma NextCommits(s: Service, e: Event)
    ensures Next(s, e).0.world == Follow(s.world, Traced(s, e))
    ensures !Commits(s, e) ==> Next(s, e).0.keys == s.keys
    ensures Commits(s, e) ==>
              var r := s.open[e.txn];
              exists p :: Next(s, e).0.keys == s.keys[IdOf(r) := Record(HashOf(r), p)]
  {
    hide Step, ResponseTo, Outcome, Interleaving.Next;
    if Commits(s, e) {
      var r := s.open[e.txn];
      var result := Outcome(s.world, e.txn, r.command);
      var p := Completed(ResponseTo(s.world.books, r, result.value));
      assert Next(s, e).0.keys == s.keys[IdOf(r) := Record(HashOf(r), p)];
    }
  }

  /** At most once: any trace of retries, concurrent duplicates, stale reads, crashes and failures
      commits each key at most once, and the keys stored are exactly those committed. */
  lemma {:induction false} AtMostOnce(s: Service, events: seq<Event>)
    ensures OnePerKey(s, Committed(s, events), Services(s, events).keys)
  {
    hide Next, Commits, OnePerKey;
    if events == [] {
      assert OnePerKey(s, [], s.keys) by { NoneCommitted(s); }
    } else {
      var n := |events| - 1;
      var earlier, e := events[..n], events[n];
      var before := Services(s, earlier);
      AtMostOnce(s, earlier);
      NextCommits(before, e);
      if Commits(before, e) {
        NewKey(before, e);
        OneMoreKey(s, Committed(s, earlier), before.keys, before.open[e.txn], Next(before, e).0.keys);
      } else {
        assert Committed(s, earlier) + [] == Committed(s, earlier);
      }
    }
  }

  lemma NoneCommitted(s: Service)
    ensures OnePerKey(s, [], s.keys)
  {}

  lemma NewKey(s: Service, e: Event)
    requires Commits(s, e)
    ensures e.Proceed? && e.txn in s.open && !s.open[e.txn].command.Deliver? && IdOf(s.open[e.txn]) !in s.keys
  {}

  lemma OneMoreKey(s: Service, committed: seq<Request>, keys: Keys, r: Request, keys': Keys)
    requires OnePerKey(s, committed, keys) && !r.command.Deliver? && IdOf(r) !in keys
    requires exists p :: keys' == keys[IdOf(r) := Record(HashOf(r), p)]
    ensures OnePerKey(s, committed + [r], keys')
  {
    var more := committed + [r];
    assert IdOf(more[|committed|]) == IdOf(r);
    forall id | id in keys && id !in s.keys ensures exists n :: 0 <= n < |more| && IdOf(more[n]) == id {
      var n :| 0 <= n < |committed| && IdOf(committed[n]) == id;
      assert IdOf(more[n]) == id;
    }
  }

  // ---- ... and the books hold exactly those requests ----

  /** A service that starts with nothing open. */
  function Fresh(b: Books, keys: Keys): Service { Service(Interleaving.World(b, map[]), keys, map[]) }

  /** A read in flight belongs to an open request. */
  ghost predicate ReadsOpen(s: Service) {
    forall t :: t in s.world.inFlight ==>
      && t in s.open && Interleaving.TwoPhase(s.world.inFlight[t].command)
      && Plain(s.world.inFlight[t].command) == Plain(s.open[t].command)
  }

  /** A command without what an exposure query returned. */
  function Plain(c: Command): Command { if c.Create? || c.Patch? then c.(outstanding := 0) else c }

  lemma NextReadsOpen(s: Service, e: Event)
    requires ReadsOpen(s)
    ensures ReadsOpen(Next(s, e).0)
  {
    hide Step, ResponseTo, Interleaving.Concluded, Outstanding, Conclude;
  }

  /** The service's ledger is one of the interleavings of its handlers. */
  lemma {:induction false} ServiceInterleaves(b: Books, keys: Keys, events: seq<Event>)
    ensures var s := Fresh(b, keys);
            && Services(s, events).world == Interleaving.Worlds(b, Trace(s, events))
            && ReadsOpen(Services(s, events))
  {
    hide Next, Traced, ReadsOpen;
    var s := Fresh(b, keys);
    if events == [] {
      assert ReadsOpen(s) by { NothingOpen(b, keys); }
    } else {
      var n := |events| - 1;
      var before := Services(s, events[..n]);
      ServiceInterleaves(b, keys, events[..n]);
      NextReadsOpen(before, events[n]);
      NextCommits(before, events[n]);
      OneMoreTraced(b, Trace(s, events[..n]), Traced(before, events[n]));
    }
  }

  lemma NothingOpen(b: Books, keys: Keys)
    ensures ReadsOpen(Fresh(b, keys))
  {}

  lemma OneMoreTraced(b: Books, trace: seq<Interleaving.Event>, more: seq<Interleaving.Event>)
    requires |more| <= 1
    ensures Interleaving.Worlds(b, trace + more) == Follow(Interleaving.Worlds(b, trace), more)
  {
    hide Interleaving.Next;
    if more == [] {
      assert trace + more == trace;
    } else {
      assert (trace + more)[..|trace|] == trace;
    }
  }

  /** The writes among some commands, without deliveries and look-ups. */
  function Writes(commands: seq<Command>): seq<Command> {
    if commands == [] then []
    else
      var c := commands[|commands| - 1];
      Writes(commands[..|commands| - 1]) + if c.Deliver? then [] else [Plain(c)]
  }

  function Asks(requests: seq<Request>): seq<Command> {
    if requests == [] then [] else Asks(requests[..|requests| - 1]) + [Plain(requests[|requests| - 1].command)]
  }

  lemma OneMoreWrite(commands: seq<Command>, c: Command)
    ensures Writes(commands + [c]) == Writes(commands) + if c.Deliver? then [] else [Plain(c)]
  {
    assert (commands + [c])[..|commands|] == commands;
  }

  lemma OneMoreAsk(requests: seq<Request>, r: Request)
    ensures Asks(requests + [r]) == Asks(requests) + [Plain(r.command)]
  {
    assert (requests + [r])[..|requests|] == requests;
  }

  /** One event adds to the serial history what it commits, and nothing else but deliveries. */
  lemma HistoryGrows(s: Service, e: Event, history: seq<Command>)
    requires ReadsOpen(s)
    ensures var traced := Traced(s, e);
            var done := if traced == [] then [] else Interleaving.Committed(s.world, traced[0]);
            Writes(history + done) == Writes(history) + if Commits(s, e) then [Plain(s.open[e.txn].command)] else []
  {
    hide Step, Interleaving.Concluded, Interleaving.Summed, Writes;
    var traced := Traced(s, e);
    var done := if traced == [] then [] else Interleaving.Committed(s.world, traced[0]);
    if done == [] {
      assert history + done == history;
      assert !Commits(s, e);
    } else {
      OneMoreWrite(history, done[0]);
      assert done == [done[0]];
    }
  }

  lemma {:induction false} HistoryIsCommitted(b: Books, keys: Keys, events: seq<Event>)
    ensures var s := Fresh(b, keys);
            Writes(Interleaving.History(b, Trace(s, events))) == Asks(Committed(s, events))
  {
    hide Next, Traced, Commits, Interleaving.Committed, ReadsOpen, Plain;
    var s := Fresh(b, keys);
    if events != [] {
      var n := |events| - 1;
      var earlier, e := events[..n], events[n];
      var before, trace := Services(s, earlier), Trace(s, earlier);
      HistoryIsCommitted(b, keys, earlier);
      ServiceInterleaves(b, keys, earlier);
      HistoryGrows(before, e, Interleaving.History(b, trace));
      HistorySnoc(b, trace, Traced(before, e));
      if Commits(before, e) {
        NewKey(before, e);
        OneMoreAsk(Committed(s, earlier), before.open[e.txn]);
      } else {
        assert Committed(s, events) == Committed(s, earlier);
      }
    }
  }

  lemma HistorySnoc(b: Books, trace: seq<Interleaving.Event>, more: seq<Interleaving.Event>)
    requires |more| <= 1
    ensures Interleaving.History(b, trace + more) == Interleaving.History(b, trace)
      + if more == [] then [] else Interleaving.Committed(Interleaving.Worlds(b, trace), more[0])
  {
    hide Interleaving.Committed, Interleaving.Worlds;
    if more == [] {
      assert trace + more == trace;
    } else {
      assert (trace + more)[..|trace|] == trace;
    }
  }

  /** So the books are a serial run whose writes are exactly the committed requests, each once, in
      commit order, each with the exposure its handler had summed. */
  lemma BooksHoldTheCommitted(b: Books, keys: Keys, events: seq<Event>)
    requires Interleaving.WriteOffsUndisturbed(b, Trace(Fresh(b, keys), events))
    ensures var s := Fresh(b, keys);
            var history := Interleaving.History(b, Trace(s, events));
            && Services(s, events).world.books == Run(b, history)
            && Writes(history) == Asks(Committed(s, events))
            && OnePerKey(s, Committed(s, events), Services(s, events).keys)
  {
    ServiceInterleaves(b, keys, events);
    HistoryIsCommitted(b, keys, events);
    AtMostOnce(Fresh(b, keys), events);
    Interleaving.InterleavingsAreSerial(b, Trace(Fresh(b, keys), events));
  }

  // ---- What the hash covers ----

  /** What the client asked for: a command without what the server looks up (rates, exposures,
      the rows an AUTO payment finds) or takes from the session (the caller). */
  function Asked(c: Command): Command {
    match c
    case Create(_, customer, currency, _, items, dueDate, _) => Create(0, customer, currency, None, items, dueDate, 0)
    case Patch(i, ifMatch, newCurrency, _, newItems, dueDate, _) => Patch(i, ifMatch, newCurrency, None, newItems, dueDate, 0)
    case Approve(i, ifMatch, _) => Approve(i, ifMatch, 0)
    case Reject(i, ifMatch, _) => Reject(i, ifMatch, 0)
    case Pay(customer, currency, _, amount, Auto(_)) => Pay(customer, currency, None, amount, Auto([]))
    case Pay(customer, currency, _, amount, Manual(items)) => Pay(customer, currency, None, amount, Manual(items))
    case Credit(i, _, amount, includeTax) => Credit(i, 0, amount, includeTax)
    case WriteOff(i) => WriteOff(i)
    case VoidInvoice(i) => VoidInvoice(i)
    case Deliver(i, now) => Deliver(i, now)
  }

  /** All of it: the payload, hashed or not. */
  datatype Ask = Ask(command: Command, details: nat, remarks: nat)

  function AskOf(r: Request): Ask {
    Ask(Asked(r.command),
        if r.command.Approve? || r.command.Reject? then 0 else r.details,
        if HasRemarks(r.command) then r.remarks else 0)
  }

  /** When a replay answers the request that was made: creates, payments and credit memos are hashed
      whole.  PATCH forgets the If-Match version; write-offs and voids forget the remarks; approvals
      forget the version, the remarks, and whether it was an approval or a rejection. */
  lemma ReplayMatchesRequest(r: Request, s: Request)
    requires !r.command.Deliver? && !s.command.Deliver? && IdOf(r) == IdOf(s) && HashOf(r) == HashOf(s)
    ensures AskOf(r) == AskOf(s) <==>
              && (r.command.Patch? ==> r.command.ifMatch == s.command.ifMatch)
              && (r.command.Approve? || r.command.Reject? ==>
                    r.command.Approve? == s.command.Approve? && r.command.ifMatch == s.command.ifMatch)
              && (HasRemarks(r.command) ==> r.remarks == s.remarks)
  {}

  /** And when a retry is recognized: whoever asks for the same thing again has the same hash, except that
      approvals, rejections, write-offs and voids also take the caller into it. */
  lemma RetryIsRecognized(r: Request, s: Request)
    requires !r.command.Deliver? && !s.command.Deliver? && IdOf(r) == IdOf(s) && AskOf(r) == AskOf(s)
    ensures HashOf(r) == HashOf(s) <==> (HasRemarks(r.command) ==> r.user == s.user)
  {}

  /** Arrival, read and commit of one request. */
  function Serve(s: Service, r: Request): (Service, Answer) {
    Next(Next(Next(s, Arrive(0, r)).0, Read(0)).0, Proceed(0))
  }

  /** A second request with the key and the hash of one that went through is answered with its response,
      whatever else it asked for. */
  lemma SecondGetsTheFirst(s: Service, first: Request, between: seq<Event>, second: Request)
    requires AllCompleted(s.keys) && s.open == map[] && ReadsFirst(first.command) && !first.command.Patch?
    requires !second.command.Deliver? && IdOf(first) !in s.keys
    requires IdOf(second) == IdOf(first) && HashOf(second) == HashOf(first)
    requires Step(s.world.books, first.command).Ok?
    ensures var (done, a) := Serve(s, first);
            var later := Services(done, between);
            && a == Answered(ResponseTo(s.world.books, first, Step(s.world.books, first.command).value))
            && (1 !in later.open ==> Next(later, Arrive(1, second)) == (later, a))
  {
    FirstIsStored(s, first);
    var (done, a) := Serve(s, first);
    hide *;
    ReplayIsSafe(done, between, second, 1);
  }

  lemma FirstIsStored(s: Service, r: Request)
    requires AllCompleted(s.keys) && s.open == map[] && ReadsFirst(r.command) && !r.command.Patch?
    requires IdOf(r) !in s.keys && Step(s.world.books, r.command).Ok?
    ensures var (done, a) := Serve(s, r);
            var response := ResponseTo(s.world.books, r, Step(s.world.books, r.command).value);
            && a == Answered(response)
            && done.keys == s.keys[IdOf(r) := Record(HashOf(r), Completed(response))]
  {
    hide ResponseTo, CommitFrom;
    var working := Next(Next(s, Arrive(0, r)).0, Read(0)).0;
    assert working.open == map[0 := r] && working.keys == s.keys && working.world.books == s.world.books;
    assert Outcome(working.world, 0, r.command) == Step(s.world.books, r.command);
  }

  /** So a rejection, followed by an approval of the corrected invoice with the same key and by the
      same approver, is answered with the rejection; nothing is approved. */
  lemma ApprovalAfterRejection(s: Service, i: nat, v: nat, user: nat, key: nat, details: nat, remarks: nat,
                               between: seq<Event>, v': nat, details': nat, remarks': nat)
    requires AllCompleted(s.keys) && Id(ApproveInvoices(i), key) !in s.keys && s.open == map[]
    requires var b := s.world.books;
             && i < |b.invoices| && b.invoices[i].status.Draft?
             && b.invoices[i].version == v && b.invoices[i].creator != user
    ensures var reject := Request(key, user, details, remarks, Reject(i, v, user));
            var approve := Request(key, user, details', remarks', Approve(i, v', user));
            var (done, a) := Serve(s, reject);
            var later := Services(done, between);
            && a.Answered?
            && (1 !in later.open ==> Next(later, Arrive(1, approve)) == (later, a))
  {
    var reject := Request(key, user, details, remarks, Reject(i, v, user));
    assert Step(s.world.books, reject.command).Ok?;
    hide Step, Serve, Services, Next, ResponseTo;
    SecondGetsTheFirst(s, reject, between, Request(key, user, details', remarks', Approve(i, v', user)));
  }

  /** And a write-off repeated with the same reason but other remarks is answered with the remarks of
      the first. */
  lemma WriteOffWithOtherRemarks(s: Service, i: nat, user: nat, key: nat, reason: nat, remarks: nat,
                                 between: seq<Event>, remarks': nat)
    requires AllCompleted(s.keys) && Id(WriteOffs(i), key) !in s.keys && s.open == map[]
    requires Step(s.world.books, WriteOff(i)).Ok? && remarks != remarks'
    ensures var first := Request(key, user, reason, remarks, WriteOff(i));
            var second := first.(remarks := remarks');
            var (done, a) := Serve(s, first);
            var later := Services(done, between);
            && AskOf(first) != AskOf(second) && a.Answered? && a.response.remarks == Some(remarks)
            && (1 !in later.open ==> Next(later, Arrive(1, second)) == (later, a))
  {
    var first := Request(key, user, reason, remarks, WriteOff(i));
    hide Step, Serve, Services, Next;
    SecondGetsTheFirst(s, first, between, first.(remarks := remarks'));
  }

  // ---- As it runs ----

  /** A request that meets no other one half-way. */
  function Served(b: Books, keys: Keys, r: Request): (Books, Keys, Answer)
    requires !r.command.Deliver?
  {
    var found := Check(keys, IdOf(r), HashOf(r));
    if found.Some? then (b, keys, found.value)
    else
      var result := Step(b, r.command);
      var (keys', a) := Conclude(b, keys, r, result);
      (if result.Ok? then result.value else b, keys', a)
  }

  /** It is what the service does when its four events follow one another. */
  lemma ServedIsUndisturbed(s: Service, r: Request, t: nat)
    requires !r.command.Deliver? && t !in s.open && t !in s.world.inFlight
    requires r.command == Interleaving.Summed(s.world.books, r.command)
    ensures var arrived, first := Next(s, Arrive(t, r)).0, Next(s, Arrive(t, r)).1;
            var (after, a) := Next(Next(arrived, Read(t)).0, Proceed(t));
            Served(s.world.books, s.keys, r) ==
              if first == Working then (after.world.books, after.keys, a) else (s.world.books, s.keys, first)
  {
    hide ResponseTo, Outstanding, Commands.CreateInvoice, CreatePayment, CreateCreditMemo, CommitFrom;
    var found := Check(s.keys, IdOf(r), HashOf(r));
    if found.None? {
      var arrived := Next(s, Arrive(t, r)).0;
      var reading := Next(arrived, Read(t)).0;
      assert reading.world.books == s.world.books && reading.keys == s.keys && reading.open[t] == r;
      assert Outcome(reading.world, t, r.command) == Step(s.world.books, r.command) by {
        ReadOutcome(s.world, t, r.command);
      }
      hide Outcome, Interleaving.Concluded, Step;
    }
  }

  lemma ReadOutcome(w: Interleaving.World, t: nat, c: Command)
    requires t !in w.inFlight && !c.Deliver? && c == Interleaving.Summed(w.books, c)
    ensures Outcome(Interleaving.Next(w, Interleaving.Begin(t, c)), t, c) == Step(w.books, c)
  {
    hide CreateInvoice, CreatePayment, CreateCreditMemo, CommitFrom;
  }

  class Api {
    const ledger: Ledgers.Ledger
    var keys: Keys

    ghost predicate Valid()
      reads this, ledger
    {
      AllCompleted(keys) && ledger.Valid()
    }

    constructor (ledger: Ledgers.Ledger)
      requires ledger.Valid()
      ensures this.ledger == ledger && keys == map[] && Valid()
    {
      this.ledger, keys := ledger, map[];
    }

    /** Inserting a key that exists violates idempotency_scope_unique. */
    method CreateKey(id: Id, hash: Hash) returns (inserted: bool)
      modifies this`keys
      ensures inserted == (id !in old(keys))
      ensures keys == if inserted then old(keys)[id := Record(hash, Processing)] else old(keys)
    {
      inserted := id !in keys;
      if inserted { keys := keys[id := Record(hash, Processing)]; }
    }

    method CompleteKey(id: Id, response: Response)
      requires id in keys
      modifies this`keys
      ensures keys == old(keys)[id := Record(old(keys)[id].hash, Completed(response))]
    {
      keys := keys[id := keys[id].(progress := Completed(response))];
    }

    method Handle(r: Request) returns (a: Answer)
      requires Valid() && !r.command.Deliver?
      modifies this`keys, ledger
      ensures (ledger.State(), keys, a) == Served(old(ledger.State()), old(keys), r)
      ensures Valid()
    {
      hide Step, ResponseTo, Ledgers.Ledger.Valid;
      var id, hash := IdOf(r), HashOf(r);
      var found := Check(keys, id, hash);
      if found.Some? { return found.value; }
      var saved, before := keys, ledger.State();
      var inserted := CreateKey(id, hash);
      var refused := ledger.Handle(r.command);
      if refused.Some? {
        keys := saved;  // the key goes with the transaction
        return Refused(refused.value);
      }
      var response := ResponseTo(before, r, ledger.State());
      CompleteKey(id, response);
      assert keys == saved[id := Record(hash, Completed(response))];
      return Answered(response);
    }
  }
}
