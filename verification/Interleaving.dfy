/** Handlers that read an invoice first and claim it at commit, running concurrently. */
module Interleaving {
  import opened Money
  import opened Books
  import opened Commands
  import opened Postings
  import opened Rows
  import opened Steps
  import opened Lifecycle
  import opened Reconciliation
  import opened Balancing

  /** A transaction that has made its reads and not finished: the row it selected, if it selects
      one, and in its command the exposure it summed. */
  datatype Read = Read(command: Command, row: Option<Invoice>)

  datatype World = World(books: Books, inFlight: map<nat, Read>)

  datatype Event =
    | Begin(txn: nat, command: Command)  // SELECT
    | Look(txn: nat)                     // the exposure query, some time later
    | Finish(txn: nat)                   // check, claim, post and commit - or roll back
    | Abort(txn: nat)                    // roll back for any other reason
    | Atomic(command: Command)           // handlers that lock their rows first

  /** Handlers whose reads and writes are apart. */
  predicate TwoPhase(c: Command) { c.Create? || ReadsFirst(c) }

  /** Whether the reads find anything to work on. */
  predicate Starts(b: Books, c: Command) {
    c.Create? || (ReadsFirst(c) && c.i < |b.invoices| && !(c.Patch? && c.newItems == Some([])))
  }

  function Summed(b: Books, c: Command): Command {
    if c.Create? || c.Patch? then c.(outstanding := Outstanding(b, c)) else c
  }

  /** The end of such a transaction, from what it read. */
  function Concluded(b: Books, r: Read): Result<Books> {
    if r.command.Create? then CreateInvoice(b, r.command)
    else if ReadsFirst(r.command) && r.command.i < |b.invoices| && r.row.Some?
    then CommitFrom(b, r.command, r.row.value)
    else Err(NotFound)
  }

  function After(r: Result<Books>, b: Books): Books { if r.Ok? then r.value else b }

  function Next(w: World, e: Event): World {
    match e
    case Begin(t, c) =>
      if Starts(w.books, c)
      then w.(inFlight := w.inFlight[t := Read(Summed(w.books, c), if c.Create? then None else Some(w.books.invoices[c.i]))])
      else w
    case Look(t) =>
      if t in w.inFlight
      then w.(inFlight := w.inFlight[t := w.inFlight[t].(command := Summed(w.books, w.inFlight[t].command))]) else w
    case Finish(t) =>
      if t in w.inFlight
      then World(After(Concluded(w.books, w.inFlight[t]), w.books), w.inFlight - {t}) else w
    case Abort(t) => w.(inFlight := w.inFlight - {t})
    case Atomic(c) => if TwoPhase(c) then w else w.(books := After(Step(w.books, c), w.books))
  }

  function Worlds(start: Books, events: seq<Event>): World {
    if events == [] then World(start, map[])
    else Next(Worlds(start, events[..|events| - 1]), events[|events| - 1])
  }

  /** The command, if any, an event commits. */
  function Committed(w: World, e: Event): seq<Command> {
    match e
    case Finish(t) => if t in w.inFlight && Concluded(w.books, w.inFlight[t]).Ok? then [w.inFlight[t].command] else []
    case Atomic(c) => if !TwoPhase(c) && Step(w.books, c).Ok? then [c] else []
    case _ => []
  }

  /** The serial history: commands in commit order, each with what its look-ups returned. */
  function History(start: Books, events: seq<Event>): seq<Command> {
    if events == [] then []
    else
      var earlier := events[..|events| - 1];
      History(start, earlier) + Committed(Worlds(start, earlier), events[|events| - 1])
  }

  /** The one assumption: a write-off, which neither locks nor checks a version, still finds the
      row it read. */
  ghost predicate Undisturbed(w: World, e: Event) {
    e.Finish? && e.txn in w.inFlight && w.inFlight[e.txn].command.WriteOff? ==>
      var r := w.inFlight[e.txn];
      r.command.i < |w.books.invoices| ==> r.row == Some(w.books.invoices[r.command.i])
  }

  ghost predicate WriteOffsUndisturbed(start: Books, events: seq<Event>) {
    events == [] ||
    (var earlier := events[..|events| - 1];
     WriteOffsUndisturbed(start, earlier) && Undisturbed(Worlds(start, earlier), events[|events| - 1]))
  }

  /** No ABA: a row still at the version that was read is the row that was read. */
  ghost predicate ReadOk(b: Books, r: Read) {
    && Starts(b, r.command)
    && (!r.command.Create? ==>
          && r.row.Some?
          && r.row.value.version <= b.invoices[r.command.i].version
          && (r.row.value.version == b.invoices[r.command.i].version ==> b.invoices[r.command.i] == r.row.value))
  }

  ghost predicate ReadsConsistent(w: World) {
    forall t :: t in w.inFlight ==> ReadOk(w.books, w.inFlight[t])
  }

  /** A commit that succeeds does what the handler would have done in one piece, had its look-ups
      returned the same. */
  lemma CommitIsAtomic(b: Books, r: Read, b': Books)
    requires ReadOk(b, r) && Concluded(b, r) == Ok(b')
    requires r.command.WriteOff? ==> r.row == Some(b.invoices[r.command.i])
    ensures Step(b, r.command) == Ok(b')
    ensures !r.command.Create? ==> r.row == Some(b.invoices[r.command.i])
  {
    hide Commit, ToBase, ApprovalEntry, VoidEntry, WriteOffEntry;
  }

  lemma BooksMoveOn(w: World, b': Books, c: Command)
    requires ReadsConsistent(w) && Step(w.books, c) == Ok(b')
    ensures ReadsConsistent(w.(books := b'))
  {
    hide Step;
    forall t | t in w.inFlight ensures ReadOk(b', w.inFlight[t]) {
      var r := w.inFlight[t];
      assert ReadOk(w.books, r);
      if !r.command.Create? { StepMoves(w.books, c, b', r.command.i); }
    }
  }

  lemma NextIsSerial(w: World, e: Event)
    requires ReadsConsistent(w) && Undisturbed(w, e)
    ensures ReadsConsistent(Next(w, e))
    ensures Next(w, e).books == Run(w.books, Committed(w, e))
  {
    hide Step, Concluded, Outstanding;
    var b := w.books;
    match e
    case Begin(t, c) =>
    case Look(t) =>
    case Abort(t) =>
    case Atomic(c) =>
      assert [c][..0] == [];
      var r := Step(b, c);
      if !TwoPhase(c) && r.Ok? { BooksMoveOn(w, r.value, c); }
    case Finish(t) =>
      if t in w.inFlight {
        var read := w.inFlight[t];
        assert ReadOk(b, read);
        var r := Concluded(b, read);
        if r.Ok? {
          CommitIsAtomic(b, read, r.value);
          BooksMoveOn(w, r.value, read.command);
          assert [read.command][..0] == [];
        }
      }
  }

  lemma {:induction false} RunsConcatenate(start: Books, first: seq<Command>, second: seq<Command>)
    ensures Run(Run(start, first), second) == Run(start, first + second)
  {
    hide Step;
    if second == [] {
      assert first + second == first;
    } else {
      var n := |second| - 1;
      RunsConcatenate(start, first, second[..n]);
      assert (first + second)[..|first + second| - 1] == first + second[..n];
    }
  }

  /** Every interleaving of reads and commits leaves the books of a serial run: the committed
      handlers one after another, each with the exposure it had summed - so everything proved of runs
      for whatever the look-ups return holds here too. */
  lemma {:induction false} InterleavingsAreSerial(start: Books, events: seq<Event>)
    requires WriteOffsUndisturbed(start, events)
    ensures ReadsConsistent(Worlds(start, events))
    ensures Worlds(start, events).books == Run(start, History(start, events))
  {
    hide Step, Next, Run, ReadsConsistent, Undisturbed;
    if events == [] {
      assert ReadsConsistent(World(start, map[])) by { NothingRead(start); }
      assert Run(start, []) == start by { NothingRead(start); }
    } else {
      var earlier, e := events[..|events| - 1], events[|events| - 1];
      var w := Worlds(start, earlier);
      InterleavingsAreSerial(start, earlier);
      NextIsSerial(w, e);
      RunsConcatenate(start, History(start, earlier), Committed(w, e));
    }
  }

  /** Rows, reconciliation and double entry, then, survive every interleaving. */
  lemma InterleavingsKeepTheBooks(baseCurrency: string, customers: map<nat, Customer>, events: seq<Event>)
    requires WriteOffsUndisturbed(Empty(baseCurrency, customers), events)
    ensures var b := Worlds(Empty(baseCurrency, customers), events).books;
            Sound(b) && Reconciled(b) && JournalOk(b)
  {
    var start := Empty(baseCurrency, customers);
    InterleavingsAreSerial(start, events);
    EmptyIsSound(baseCurrency, customers);
    EmptyReconciles(baseCurrency, customers);
    RunKeeps(start, History(start, events));
    RunsReconcile(start, History(start, events));
    RunsBalance(start, History(start, events));
    hide Worlds, Run, Sound, Reconciled, JournalOk, History;
  }

  lemma NothingRead(start: Books)
    ensures ReadsConsistent(World(start, map[])) && Run(start, []) == start
  {}

  /** So however approvals, patches, rejections and voids race, an invoice is posted at most once
      and gets at most one outbox event, exactly when it is posted; and its one INVOICE entry debits AR
      with the total the row holds and credits revenue with its subtotal and tax payable with its tax. */
  lemma PostedAtMostOnce(baseCurrency: string, customers: map<nat, Customer>, events: seq<Event>, i: nat)
    requires WriteOffsUndisturbed(Empty(baseCurrency, customers), events)
    ensures var b := Worlds(Empty(baseCurrency, customers), events).books;
            && (Tally(b.journal, Approvals(i)) == 0 || Tally(b.journal, Approvals(i)) == 1)
            && (i in b.outbox <==> Tally(b.journal, Approvals(i)) == 1)
            && (forall m, n :: 0 <= m < n < |b.outbox| ==> b.outbox[m] != b.outbox[n])
            && (i in b.outbox ==>
                  && i < |b.invoices| && !b.invoices[i].status.Draft?
                  && forall k :: Tally(b.journal, Invoiced(i, k)) == b.invoices[i].Total(k))
            && (forall n :: 0 <= n < |b.journal| && b.journal[n].document == ForInvoice(i) ==>
                  i < |b.invoices| && PostsSale(b.journal[n], b.invoices[i]))
  {
    var start := Empty(baseCurrency, customers);
    InterleavingsAreSerial(start, events);
    EmptyIsSound(baseCurrency, customers);
    RunKeeps(start, History(start, events));
    RunsKeepPosted(start, History(start, events));
    hide Worlds, Run, Tally, ToBase, Drift, History, ApprovalEntry, PostsSale, PostedAsHeld;
    var b := Worlds(start, events).books;
    TotalsAsHeld(b, i);
    SalesAsHeld(b, i);
  }

  lemma SalesAsHeld(b: Books, i: nat)
    requires Sound(b) && PostedAsHeld(b)
    ensures forall n :: 0 <= n < |b.journal| && b.journal[n].document == ForInvoice(i) ==>
              i < |b.invoices| && PostsSale(b.journal[n], b.invoices[i])
  {
    if i < |b.invoices| {
      PricedRow(b, i);
      hide Sound, ApprovalEntry, Entry.Posts, LineSum, Postings.Priced;
      forall k { ApprovalPosting(i, b.invoices[i], k); }
    }
  }

  lemma TotalsAsHeld(b: Books, i: nat)
    requires Sound(b)
    ensures Tally(b.journal, Approvals(i)) == 0 || Tally(b.journal, Approvals(i)) == 1
    ensures Tally(b.journal, Approvals(i)) == 1 ==>
              && i < |b.invoices| && !b.invoices[i].status.Draft?
              && forall k :: Tally(b.journal, Invoiced(i, k)) == b.invoices[i].Total(k)
  {
    hide Tally, ToBase, Drift;
    assert RowAt(b, i);
    if i < |b.invoices| {
      var inv := b.invoices[i];
      assert Posted(b.journal, i, inv) ==>
               Conserved(b.journal, i, inv, Transaction) && Conserved(b.journal, i, inv, Base);
      forall k | Tally(b.journal, Approvals(i)) == 1 ensures Tally(b.journal, Invoiced(i, k)) == inv.Total(k) {
        match k case Transaction => case Base =>
      }
    }
  }

  // ---- What the exposure of a draft was ----

  /** Some earlier state of the books had this exposure for the command's customer. */
  ghost predicate WasSummed(start: Books, events: seq<Event>, c: Command)
    requires c.Create? || c.Patch?
  {
    exists m :: 0 <= m <= |events| && c.outstanding == Outstanding(Worlds(start, events[..m]).books, c)
  }

  lemma {:induction false} SumsWereSeen(start: Books, events: seq<Event>, t: nat)
    requires t in Worlds(start, events).inFlight
    ensures var c := Worlds(start, events).inFlight[t].command;
            c.Create? || c.Patch? ==> WasSummed(start, events, c)
  {
    hide Concluded, Step, Outstanding;
    if events != [] {
      var n := |events| - 1;
      var w, e := Worlds(start, events[..n]), events[n];
      var c := Worlds(start, events).inFlight[t].command;
      if c.Create? || c.Patch? {
        if (e.Begin? && e.txn == t && Starts(w.books, e.command)) || (e.Look? && e.txn == t) {
          var asked := if e.Begin? then e.command else w.inFlight[t].command;
          SameQuestion(w.books, asked);
          assert c.outstanding == Outstanding(Worlds(start, events[..n]).books, c);
        } else {
          SumsWereSeen(start, events[..n], t);
          var m :| 0 <= m <= n && c.outstanding == Outstanding(Worlds(start, events[..n][..m]).books, c);
          assert events[..n][..m] == events[..m];
        }
      }
    }
  }

  lemma SameQuestion(b: Books, c: Command)
    requires c.Create? || c.Patch?
    ensures Summed(b, c).outstanding == Outstanding(b, Summed(b, c))
  {}

  /** Every create or patch an interleaving commits carries the exposure its customer really had at some
      moment before the commit. */
  lemma DraftsWereSummed(start: Books, events: seq<Event>, n: nat)
    requires n < |events|
    ensures forall c :: c in Committed(Worlds(start, events[..n]), events[n]) && (c.Create? || c.Patch?) ==>
              WasSummed(start, events[..n], c)
  {
    hide Concluded, Step, Worlds, WasSummed;
    if events[n].Finish? && events[n].txn in Worlds(start, events[..n]).inFlight {
      SumsWereSeen(start, events[..n], events[n].txn);
    }
  }

  // ---- Without the assumption ----

  /** A write-off commits exactly when the row it read could be written off, whatever the row has
      become: a PAID or VOID invoice turns WRITTEN_OFF, and the version falls back to the one after
      the read. */
  lemma StaleWriteOffIgnoresTheRow(b: Books, i: nat, read: Invoice)
    requires i < |b.invoices|
    ensures var r := CommitFrom(b, WriteOff(i), read);
            && (r.Ok? <==> read.Open() && read.balance > 0 && read.baseBalance > 0)
            && (r.Ok? ==>
                  && |r.value.invoices| == |b.invoices|
                  && r.value.invoices[i].status.WrittenOff? && r.value.invoices[i].version == read.version + 1
                  && (MayBecome(b.invoices[i].status, WrittenOff) <==>
                        b.invoices[i].Open() || b.invoices[i].status.WrittenOff?))
  {
    var lines := WriteOffEntry(i, read).lines;
    assert lines == [Dr(BadDebt, read.balance, read.baseBalance), Cr(Receivable, read.balance, read.baseBalance)];
    assert read.balance > 0 ==> (lines[0].Postable() <==> read.baseBalance > 0);
    assert read.balance > 0 ==> (lines[1].Postable() <==> read.baseBalance > 0);
    assert AllPostable(lines) <==> lines[0].Postable() && lines[1].Postable();
  }

  /** It moves the two ledgers apart by the difference between what was read and what is open now -
      nothing, if the row has been paid off or voided; it is harmless exactly when they are equal. */
  lemma StaleWriteOff(b: Books, i: nat, read: Invoice, b': Books)
    requires i < |b.invoices| && CommitFrom(b, WriteOff(i), read) == Ok(b')
    ensures GeneralLedger(b') - Subledger(b')
         == GeneralLedger(b) - Subledger(b) + OpenBase(b.invoices[i]) - read.baseBalance
  {
    hide Tally, LineSum, AllPostable;
    var e := WriteOffEntry(i, read);
    WriteOffPosting(i, read, Base);
    assert e.document == ForWriteOff(i);
    hide WriteOffEntry;
    EntryPosted(b, b', e, i);
    OneRowChanges(b, b', i);
  }

  /** A void that slips in between: AR is credited twice, and a VOID invoice ends WRITTEN_OFF. */
  lemma VoidThenWriteOff(b: Books, i: nat, b': Books)
    requires Sound(b) && i < |b.invoices| && b.invoices[i].Open() && b.invoices[i].baseBalance > 0
    requires Step(b, VoidInvoice(i)) == Ok(b')
    ensures i < |b'.invoices| && b'.invoices[i].status.Void?
    ensures var read := b.invoices[i];
            var last := CommitFrom(b', WriteOff(i), read);
            && last.Ok? && i < |last.value.invoices| && last.value.invoices[i].status.WrittenOff?
            && GeneralLedger(last.value) - Subledger(last.value)
               == GeneralLedger(b') - Subledger(b') - read.baseBalance
  {
    VoidShape(b, VoidInvoice(i), b');
    OpenIsPostable(b, i);
    hide Step, Sound, GeneralLedger, Subledger;
    StaleWriteOffIgnoresTheRow(b', i, b.invoices[i]);
    hide CommitFrom;
    StaleWriteOff(b', i, b.invoices[i], CommitFrom(b', WriteOff(i), b.invoices[i]).value);
  }

  /** Two CFOs who read the same open invoice both succeed, and GL 1200 is credited twice. */
  lemma DoubleWriteOff(b: Books, i: nat)
    requires Sound(b) && i < |b.invoices| && b.invoices[i].Open() && b.invoices[i].baseBalance > 0
    ensures var read := b.invoices[i];
            var first := CommitFrom(b, WriteOff(i), read);
            && first.Ok? && i < |first.value.invoices|
            && var second := CommitFrom(first.value, WriteOff(i), read);
               && second.Ok?
               && GeneralLedger(second.value) - Subledger(second.value)
                  == GeneralLedger(b) - Subledger(b) - read.baseBalance
  {
    hide Tally, Sound;
    var read := b.invoices[i];
    assert read.balance > 0 && AllPostable(WriteOffEntry(i, read).lines) by { OpenIsPostable(b, i); }
    hide AllPostable, WriteOffEntry, GeneralLedger, Subledger;
    var first := CommitFrom(b, WriteOff(i), read).value;
    StaleWriteOff(b, i, read, first);
    StaleWriteOff(first, i, read, CommitFrom(first, WriteOff(i), read).value);
  }

  lemma OpenIsPostable(b: Books, i: nat)
    requires Sound(b) && i < |b.invoices| && b.invoices[i].Open() && b.invoices[i].baseBalance > 0
    ensures b.invoices[i].balance > 0 && AllPostable(WriteOffEntry(i, b.invoices[i]).lines)
  {
    hide Tally, ToBase, Drift;
    assert RowAt(b, i);
  }
}
