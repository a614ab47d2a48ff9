/**
 * Where the sagas meet the role protocol. A saga sees balances and a ledger keyed by its own
 * sources; the protocol has rows and source texts. What the protocol answers to a grant is what
 * the sagas read off `GrantTo`, and everything else it does is an outside step of every saga.
 */
module Seam {
  import opened Base
  import opened Roles
  import opened Ledger
  import opened RoleProtocol
  import opened RoleTheorems
  import Sources
  import Auction
  import Payment
  import Inbox

  /* ---------- the answer of a grant ---------- */

  /** The grant answered success, at once or as a duplicate that goes on to its reload. */
  predicate GrantSucceeds(g: Granted) { g.Duplicate? || g.out.reply.Ok? }

  function Granting(s: State, id: nat, source: string, b: Bundle, net: Net): Granted
    requires id in s.actors
  {
    RunGrant(s.db, s.actors[id].role, s.actors[id].cell, source, b, net)
  }

  /** What a grant under a non-empty source did to the economy, by its answer. */
  predicate AnswersTruly<S(==)>(g: Granted, e: Econ<S>, e': Econ<S>, role: int, source: S, b: Bundle) {
    match g
    case Duplicate => e' == e && (role, source) in e.ledger
    case Settled(out) => BookedNow(e, e', role, source, b) || (out.reply.Err? && e' == e)
  }

  /** In every run: a grant answered Ok has booked its bundle just now, a duplicate is booked already,
      and a failed one has either changed nothing or was booked with its answer lost. */
  lemma GrantAnswersTruly(steps: seq<Step>, id: nat, source: string, b: Bundle, net: Net)
    requires Ready(Run(Start, steps), id) && source != ""
    ensures var s, t := Run(Start, steps), Run(Start, steps + [GrantTask(id, source, b, net)]);
            AnswersTruly(Granting(s, id, source, b, net), View(s), View(t), s.actors[id].role, source, b)
  {
    RunKeeps(steps);
    RunOne(Start, steps, GrantTask(id, source, b, net));
    TaskAnswersTruly(Run(Start, steps), id, source, b, net);
  }

  lemma TaskAnswersTruly(s: State, id: nat, source: string, b: Bundle, net: Net)
    requires Inv(s) && Ready(s, id) && source != ""
    ensures AnswersTruly(Granting(s, id, source, b, net), View(s), View(Next(s, GrantTask(id, source, b, net))),
                         s.actors[id].role, source, b)
  {
    ActorsAreGrounded(s, id);
    var a := s.actors[id];
    if Matches(s.db, a.role, a.cell) && Mutate(a.cell.mem, Grant(b)).Ok?
       && (a.role, source) !in s.db.ledger && !net.NeverRan? {
      GrantCommits(s, id, source, b, net);
      CommitBooks(s, Next(s, GrantTask(id, source, b, net)), id, source, b, Mutate(a.cell.mem, Grant(b)).value);
    } else {
      FailedGrantKeeps(s, id, source, b, net);
    }
  }

  lemma CommitBooks(s: State, t: State, id: nat, source: string, b: Bundle, after: Snapshot)
    requires Inv(s) && Commits(s, t, id, Commit(Grant(b), Some(source)), after)
    ensures BookedNow(View(s), View(t), s.actors[id].role, source, b)
  {
    CommitExtendsSnapshot(s, t, id, Commit(Grant(b), Some(source)), after);
    CommittedRowMoves(s, t, id, b, after);
    CommitIsEconStep(s, t, s.actors[id].role, b, Some(source));
  }

  lemma CommittedRowMoves(s: State, t: State, id: nat, b: Bundle, after: Snapshot)
    requires id in s.actors && s.actors[id].role in s.db.rows
    requires var r := s.actors[id].role;
             && t.db.rows == Committed(s.db, r, after).rows && Decode(t.db.rows[r]).mem == after
             && Mutate(Decode(s.db.rows[r]).mem, Grant(b)) == Ok(after)
    ensures RowMoved(s, t, s.actors[id].role, b)
  {
    MutationMovesByDelta(Decode(s.db.rows[s.actors[id].role]).mem, Grant(b));
  }

  /** A grant that does not commit leaves the tables, and is answered with an error unless it is a duplicate. */
  lemma FailedGrantKeeps(s: State, id: nat, source: string, b: Bundle, net: Net)
    requires Ready(s, id) && source != ""
    requires var a := s.actors[id];
             !Matches(s.db, a.role, a.cell) || Mutate(a.cell.mem, Grant(b)).Err?
             || (a.role, source) in s.db.ledger || net.NeverRan?
    ensures Next(s, GrantTask(id, source, b, net)).db == s.db
    ensures var g := Granting(s, id, source, b, net);
            if g.Duplicate? then (s.actors[id].role, source) in s.db.ledger else g.out.reply.Err?
  {
  }

  /* ---------- retrying a grant that is booked ---------- */

  /** A retry of a grant whose source is booked succeeds if and only if the actor's memory could afford the
      bundle once more: the balance is checked before the ledger. A refused retry changes nothing. */
  lemma BookedRetryIff(s: State, id: nat, source: string, b: Bundle)
    requires Ready(s, id) && source != "" && (s.actors[id].role, source) in s.db.ledger
    ensures var g, applied := Granting(s, id, source, b, Answered), ApplyBundle(s.actors[id].cell.mem, b);
            && (GrantSucceeds(g) <==> applied.Ok?)
            && (applied.Err? ==> g == Settled(After(s.db, s.actors[id].cell, Err(applied.error))))
  {
  }

  /** A Create that stopped after its escrow was booked is completed by a retry if and only if the
      seller's memory holds the quantity again. */
  lemma EscrowRetryIff(s: State, id: nat, listing: nat, l: Auction.Listing)
    requires Ready(s, id) && l.qty > 0
    requires (s.actors[id].role, AuctionText(Auction.Escrow(listing))) in s.db.ledger
    ensures GrantSucceeds(Granting(s, id, AuctionText(Auction.Escrow(listing)), Auction.EscrowBundle(l), Answered))
         <==> Count(s.actors[id].cell.mem.bag, l.item) >= l.qty
  {
    var b := Auction.EscrowBundle(l);
    assert |AuctionText(Auction.Escrow(listing))| > 0;
    BookedRetryIff(s, id, AuctionText(Auction.Escrow(listing)), b);
    assert l.item in b.items;
  }

  /** The actor commits the grant: its memory moves, it stays level with its row, the source is booked. */
  lemma GrantMovesMemory(s: State, id: nat, source: string, b: Bundle)
    requires Grounded(s, id) && Ready(s, id) && source != "" && Matches(s.db, s.actors[id].role, s.actors[id].cell)
    requires Mutate(s.actors[id].cell.mem, Grant(b)).Ok? && (s.actors[id].role, source) !in s.db.ledger
    ensures var t := Next(s, GrantTask(id, source, b, Answered));
            && Grounded(t, id) && Ready(t, id) && t.actors[id].role == s.actors[id].role
            && Matches(t.db, t.actors[id].role, t.actors[id].cell)
            && t.actors[id].cell.mem == Mutate(s.actors[id].cell.mem, Grant(b)).value
            && t.db.ledger == s.db.ledger[(s.actors[id].role, source) := b]
  {
  }

  const GEM := map["gem" := 1]
  const LISTED_GEM := Auction.Listing(7, "gem", 1, 10, Auction.Pending, None, "k")

  const ESCROW_TEXT := AuctionText(Auction.Escrow(1))
  const GET_GEM := GrantTask(0, "mail:1", Bundle(0, GEM), Answered)
  const TO_ESCROW := GrantTask(0, ESCROW_TEXT, Auction.EscrowBundle(LISTED_GEM), Answered)

  /** A run in which a seller's only gem is in escrow, booked, and the retry that should open the listing
      is refused: the gem stays in escrow of a pending listing. */
  lemma EscrowRetryRefused() returns (steps: seq<Step>)
    ensures var s := Run(Start, steps);
            && Ready(s, 0) && (s.actors[0].role, ESCROW_TEXT) in s.db.ledger
            && !GrantSucceeds(Granting(s, 0, ESCROW_TEXT, Auction.EscrowBundle(LISTED_GEM), Answered))
  {
    var a := [EnsureRole(7, 1)] + [AcquireRole(0, 7)];
    RunOne(Start, [], EnsureRole(7, 1));
    RunOne(Start, [EnsureRole(7, 1)], AcquireRole(0, 7));
    FirstSteps();
    RunOne(Start, a, GET_GEM);
    RunOne(Start, a + [GET_GEM], TO_ESCROW);
    steps := a + [GET_GEM] + [TO_ESCROW];
    PoorIsLevel();
    GemArrives(Poor);
    GemLeaves(Next(Poor, GET_GEM));
    EscrowRetryIff(Next(Next(Poor, GET_GEM), TO_ESCROW), 0, 1, LISTED_GEM);
  }

  lemma PoorIsLevel()
    ensures Level7(Poor) && Poor.actors[0].cell.mem == POOR && Poor.db.ledger == map[]
  {
  }

  lemma GemIsAdded()
    ensures Mutate(POOR, Grant(Bundle(0, GEM))) == Ok(POOR.(bag := GEM))
  {
    assert Shifted(map[], GEM) == GEM;
  }

  lemma GemArrives(s: State)
    requires Level7(s) && s.actors[0].cell.mem == POOR && s.db.ledger == map[]
    ensures var t := Next(s, GET_GEM);
            Level7(t) && t.actors[0].cell.mem == POOR.(bag := GEM) && (7, ESCROW_TEXT) !in t.db.ledger
  {
    GemIsAdded();
    GrantMovesMemory(s, 0, "mail:1", Bundle(0, GEM));
    assert ESCROW_TEXT[0] == 'a';
  }

  lemma GemLeaves(s: State)
    requires Level7(s) && s.actors[0].cell.mem == POOR.(bag := GEM) && (7, ESCROW_TEXT) !in s.db.ledger
    ensures var t := Next(s, TO_ESCROW);
            Level7(t) && Count(t.actors[0].cell.mem.bag, "gem") == 0 && (7, ESCROW_TEXT) in t.db.ledger
  {
    assert ESCROW_TEXT[0] == 'a';
    var b := Auction.EscrowBundle(LISTED_GEM);
    assert b == Bundle(0, map["gem" := -1]);
    GrantMovesMemory(s, 0, ESCROW_TEXT, b);
    ShiftedCounts(GEM, b.items, "gem");
  }

  /** Actor 0 of role 7 is idle and level with its row. */
  predicate Level7(s: State) {
    Ready(s, 0) && Grounded(s, 0) && s.actors[0].role == 7 && Matches(s.db, 7, s.actors[0].cell)
  }

  /** No step removes or changes a ledger entry, and only a grant under its source adds one. */
  lemma LedgerMovesByGrants(s: State, step: Step)
    requires Inv(s)
    ensures var t := Next(s, step);
            && (forall k :: k in s.db.ledger ==> k in t.db.ledger && t.db.ledger[k] == s.db.ledger[k])
            && (forall k :: k in t.db.ledger && k !in s.db.ledger ==> step.GrantTask? && k.1 == step.source)
  {
    var t := Next(s, step);
    match step
    case SaveTask(id, m, net) => ActorsAreGrounded(s, id); SaveCommitsOrKeeps(s, id, m, net); SavesKeepLedger(s, step);
    case PassTask(id, net) => SavesKeepLedger(s, step);
    case GrantTask(id, source, b, net) => GrantBooksItsSource(s, id, source, b, net);
    case _ =>
  }

  lemma SavesKeepLedger(s: State, step: Step)
    requires step.SaveTask? || step.PassTask?
    ensures Next(s, step).db.ledger == s.db.ledger
  {
  }

  lemma GrantBooksItsSource(s: State, id: nat, source: string, b: Bundle, net: Net)
    ensures var t := Next(s, GrantTask(id, source, b, net));
            && (forall k :: k in s.db.ledger ==> k in t.db.ledger && t.db.ledger[k] == s.db.ledger[k])
            && (forall k :: k in t.db.ledger && k !in s.db.ledger ==> k.1 == source)
  {
  }

  lemma {:induction false} BookedStaysBooked(s: State, more: seq<Step>, k: (int, string))
    requires Inv(s) && k in s.db.ledger
    ensures Inv(Run(s, more))
    ensures k in Run(s, more).db.ledger && Run(s, more).db.ledger[k] == s.db.ledger[k]
  {
    if more != [] {
      var t := Run(s, more[..|more| - 1]);
      BookedStaysBooked(s, more[..|more| - 1], k);
      EntryStays(t, more[|more| - 1], k);
    }
  }

  lemma EntryStays(s: State, step: Step, k: (int, string))
    requires Inv(s) && k in s.db.ledger
    ensures Inv(Next(s, step))
    ensures k in Next(s, step).db.ledger && Next(s, step).db.ledger[k] == s.db.ledger[k]
  {
    StepKeeps(s, step);
    LedgerMovesByGrants(s, step);
  }

  /** In every run: once a grant under a non-empty source succeeds, at once or as a duplicate, its
      source is booked for the role in every later state. */
  lemma SuccessIsBookedForGood(steps: seq<Step>, id: nat, source: string, b: Bundle, net: Net, more: seq<Step>)
    requires Ready(Run(Start, steps), id) && source != ""
    requires GrantSucceeds(Granting(Run(Start, steps), id, source, b, net))
    ensures var path := steps + [GrantTask(id, source, b, net)] + more;
            (Run(Start, steps).actors[id].role, source) in Run(Start, path).db.ledger
  {
    var s, path := Run(Start, steps), steps + [GrantTask(id, source, b, net)];
    GrantAnswersTruly(steps, id, source, b, net);
    assert (s.actors[id].role, source) in View(Run(Start, path)).ledger;
    RunKeeps(path);
    BookedStaysBooked(Run(Start, path), more, (s.actors[id].role, source));
    RunConcat(Start, path, more);
  }

  /* ---------- texts as sources ---------- */

  ghost predicate OneToOne<S(!new)>(read: string -> S) {
    forall a, b :: read(a) == read(b) ==> a == b
  }

  /** The economy with every source text read as a saga reads it. */
  ghost function ReadBy<S(!new)>(e: Econ<string>, read: string -> S): Econ<S>
    requires OneToOne(read)
  {
    Econ(e.gold, e.bags, ReadLedger(e.ledger, read))
  }

  lemma BookingReads<S(!new)>(e: Econ<string>, e': Econ<string>, role: int, source: string, b: Bundle, read: string -> S)
    requires OneToOne(read) && BookedNow(e, e', role, source, b)
    ensures BookedNow(ReadBy(e, read), ReadBy(e', read), role, read(source), b)
  {
    LedgerReads(e.ledger, role, source, b, read);
  }

  ghost function ReadLedger<S(!new)>(ledger: map<(int, string), Bundle>, read: string -> S): map<(int, S), Bundle>
    requires OneToOne(read)
  {
    map k | k in ledger :: (k.0, read(k.1)) := ledger[k]
  }

  /** Reading a ledger with one more entry. */
  lemma LedgerReads<S(!new)>(ledger: map<(int, string), Bundle>, role: int, source: string, b: Bundle, read: string -> S)
    requires OneToOne(read) && (role, source) !in ledger
    ensures (role, read(source)) !in ReadLedger(ledger, read)
    ensures ReadLedger(ledger[(role, source) := b], read) == ReadLedger(ledger, read)[(role, read(source)) := b]
  {
    var v, v' := ReadLedger(ledger, read), ReadLedger(ledger[(role, source) := b], read);
    forall k ensures k in v' <==> k in v || k == (role, read(source)) {
      if k in v {
        var p :| p in ledger && k == (p.0, read(p.1));
        assert p in ledger[(role, source) := b];
      }
      if k == (role, read(source)) {
        assert (role, source) in ledger[(role, source) := b];
      }
    }
  }

  lemma AnswersTrulyRead<S(!new)>(g: Granted, e: Econ<string>, e': Econ<string>, role: int, source: string, b: Bundle,
                                  read: string -> S)
    requires OneToOne(read) && AnswersTruly(g, e, e', role, source, b)
    ensures AnswersTruly(g, ReadBy(e, read), ReadBy(e', read), role, read(source), b)
  {
    if BookedNow(e, e', role, source, b) {
      BookingReads(e, e', role, source, b, read);
    }
  }

  /** In every run, for any saga's reading of the texts: what a grant that succeeds does to the
      economy is what `GrantTo` says, and a grant that fails does that or nothing. */
  lemma GrantIsGrantTo<S(!new)>(steps: seq<Step>, id: nat, source: string, b: Bundle, net: Net, read: string -> S)
    requires Ready(Run(Start, steps), id) && source != "" && OneToOne(read)
    ensures var s, t := Run(Start, steps), Run(Start, steps + [GrantTask(id, source, b, net)]);
            var e, e' := ReadBy(View(s), read), ReadBy(View(t), read);
            var granted := GrantTo(e, s.actors[id].role, read(source), b);
            if GrantSucceeds(Granting(s, id, source, b, net)) then granted == Some(e')
            else e' == e || granted == Some(e')
  {
    GrantAnswersTruly(steps, id, source, b, net);
    var s, t := Run(Start, steps), Run(Start, steps + [GrantTask(id, source, b, net)]);
    var g := Granting(s, id, source, b, net);
    AnswersTrulyRead(g, View(s), View(t), s.actors[id].role, source, b, read);
    TrueAnswerIsGrantTo(g, ReadBy(View(s), read), ReadBy(View(t), read), s.actors[id].role, read(source), b);
  }

  lemma TrueAnswerIsGrantTo<S>(g: Granted, e: Econ<S>, e': Econ<S>, role: int, source: S, b: Bundle)
    requires AnswersTruly(g, e, e', role, source, b)
    ensures if GrantSucceeds(g) then GrantTo(e, role, source, b) == Some(e')
            else e' == e || GrantTo(e, role, source, b) == Some(e')
  {
  }

  /** In every run: a step that is not a grant under one of a saga's own sources is an outside step for it. */
  lemma OthersAreOutside<S(!new)>(steps: seq<Step>, step: Step, read: string -> S, own: S -> bool)
    requires OneToOne(read) && (step.GrantTask? ==> !own(read(step.source)))
    ensures OutsideStepOf(ReadBy(View(Run(Start, steps)), read), ReadBy(View(Run(Start, steps + [step])), read), own)
  {
    var s, t := Run(Start, steps), Run(Start, steps + [step]);
    StepsAreEconSteps(steps, step);
    RunKeeps(steps);
    RunOne(Start, steps, step);
    LedgerMovesByGrants(s, step);
    var e, e' := View(s), View(t);
    if role, source, b :| BookedNow(e, e', role, source, b) {
      assert (role, source) in t.db.ledger && (role, source) !in s.db.ledger;
      BookingReads(e, e', role, source, b, read);
    } else {
      PlainStepReads(e, e', read, own);
    }
  }

  lemma PlainStepReads<S(!new)>(e: Econ<string>, e': Econ<string>, read: string -> S, own: S -> bool)
    requires OneToOne(read) && EconStep(e, e')
    requires !exists role, source, b :: BookedNow(e, e', role, source, b)
    ensures OutsideStepOf(ReadBy(e, read), ReadBy(e', read), own)
  {
    if role :| role !in e.gold && e' == NewRole(e, role) {
      NewRoleReads(e, role, read, own);
    } else if role, b :| CanApply(e, role, b) && e' == Applied(e, role, b) {
      PlainChangeReads(e, role, b, read, own);
    }
  }

  lemma NewRoleReads<S(!new)>(e: Econ<string>, role: int, read: string -> S, own: S -> bool)
    requires OneToOne(read) && role !in e.gold
    ensures OutsideStepOf(ReadBy(e, read), ReadBy(NewRole(e, role), read), own)
  {
    var v := ReadBy(e, read);
    assert role !in v.gold && ReadBy(NewRole(e, role), read) == NewRole(v, role);
  }

  lemma PlainChangeReads<S(!new)>(e: Econ<string>, role: int, b: Bundle, read: string -> S, own: S -> bool)
    requires OneToOne(read) && CanApply(e, role, b)
    ensures OutsideStepOf(ReadBy(e, read), ReadBy(Applied(e, role, b), read), own)
  {
    ChangeReads(e, role, b, read);
    assert CanApply(ReadBy(e, read), role, b);
  }

  lemma ChangeReads<S(!new)>(e: Econ<string>, role: int, b: Bundle, read: string -> S)
    requires OneToOne(read) && CanApply(e, role, b)
    ensures CanApply(ReadBy(e, read), role, b)
    ensures ReadBy(Applied(e, role, b), read) == Applied(ReadBy(e, read), role, b)
  {
  }

  /* ---------- the three sagas ---------- */

  /** The auction's sources; any other text is somebody else's. */
  ghost function AuctionSource(text: string): Auction.Source {
    if exists id: nat :: text == Sources.Text(Sources.Escrow(id)) then
      var id: nat :| text == Sources.Text(Sources.Escrow(id)); Auction.Escrow(id)
    else if exists id: nat :: text == Sources.Text(Sources.Buyer(id)) then
      var id: nat :| text == Sources.Text(Sources.Buyer(id)); Auction.Buyer(id)
    else if exists id: nat :: text == Sources.Text(Sources.Seller(id)) then
      var id: nat :| text == Sources.Text(Sources.Seller(id)); Auction.Seller(id)
    else Auction.Elsewhere(text)
  }

  function AuctionText(source: Auction.Source): string {
    match source
    case Escrow(id) => Sources.Text(Sources.Escrow(id))
    case Buyer(id) => Sources.Text(Sources.Buyer(id))
    case Seller(id) => Sources.Text(Sources.Seller(id))
    case Elsewhere(name) => name
  }

  /** Texts are read one-to-one, and the text the auction writes for a source is read as that source. */
  lemma AuctionReads(text: string, source: Auction.Source)
    ensures AuctionText(AuctionSource(text)) == text
    ensures !source.Elsewhere? ==> AuctionSource(AuctionText(source)) == source
    ensures OneToOne(AuctionSource)
  {
    if !source.Elsewhere? {
      AuctionTextIsOwn(source);
    }
    forall a, b | AuctionSource(a) == AuctionSource(b) ensures a == b {
      assert AuctionText(AuctionSource(a)) == a && AuctionText(AuctionSource(b)) == b;
    }
  }

  lemma AuctionTextIsOwn(source: Auction.Source)
    requires !source.Elsewhere?
    ensures AuctionSource(AuctionText(source)) == source
  {
    var text := AuctionText(source);
    forall o, p | Sources.Text(o) == text && Sources.Text(p) == text ensures o == p {
      Sources.TextInjective(o, p);
    }
  }

  ghost function PaySource(text: string): Payment.Source {
    if exists order: string :: text == Sources.Text(Sources.Pay(order)) then
      var order: string :| text == Sources.Text(Sources.Pay(order)); Payment.Pay(order)
    else Payment.Elsewhere(text)
  }

  lemma PayReads(order: string)
    ensures PaySource(Sources.Text(Sources.Pay(order))) == Payment.Pay(order)
    ensures OneToOne(PaySource)
  {
    var o: string :| Sources.Text(Sources.Pay(order)) == Sources.Text(Sources.Pay(o))
                     && PaySource(Sources.Text(Sources.Pay(order))) == Payment.Pay(o);
    Sources.TextInjective(Sources.Pay(order), Sources.Pay(o));
  }

  ghost function MailSource(text: string): Inbox.Source {
    if exists id: nat :: text == Sources.Text(Sources.Mail(id)) then
      var id: nat :| text == Sources.Text(Sources.Mail(id)); Inbox.FromMail(id)
    else Inbox.Elsewhere(text)
  }

  lemma MailReads(id: nat)
    ensures MailSource(Sources.Text(Sources.Mail(id))) == Inbox.FromMail(id)
    ensures OneToOne(MailSource)
  {
    var i: nat :| Sources.Text(Sources.Mail(id)) == Sources.Text(Sources.Mail(i))
                  && MailSource(Sources.Text(Sources.Mail(id))) == Inbox.FromMail(i);
    Sources.TextInjective(Sources.Mail(id), Sources.Mail(i));
  }

  /** A step of the auction that moves the economy to `e'` and nothing else. */
  predicate AuctionMoves(u: Auction.State, step: Auction.Step, e': Econ<Auction.Source>) {
    var t := Auction.Next(u, step);
    t.econ == e' && t.listings == u.listings && t.sagas == u.sagas
  }

  lemma AuctionBooks(u: Auction.State, role: int, name: string, b: Bundle)
    requires CanApply(u.econ, role, b) && (role, Auction.Elsewhere(name)) !in u.econ.ledger
    ensures AuctionMoves(u, Auction.OutsideStep(role, Some(name), b), Booked(u.econ, role, Auction.Elsewhere(name), b))
  {
  }

  lemma AuctionChanges(u: Auction.State, role: int, b: Bundle)
    requires CanApply(u.econ, role, b)
    ensures AuctionMoves(u, Auction.OutsideStep(role, None, b), Applied(u.econ, role, b))
  {
  }

  /** Whatever happens outside the auction, the auction has a step for it. */
  lemma AuctionCovers(u: Auction.State, e': Econ<Auction.Source>)
    requires OutsideStepOf(u.econ, e', (x: Auction.Source) => !x.Elsewhere?)
    ensures e' == u.econ || exists step :: AuctionMoves(u, step, e')
  {
    if role :| role !in u.econ.gold && e' == NewRole(u.econ, role) {
      assert AuctionMoves(u, Auction.RoleStep(role), e');
    } else if role, b :| CanApply(u.econ, role, b) && e' == Applied(u.econ, role, b) {
      AuctionChanges(u, role, b);
    } else if role, source: Auction.Source, b :| source.Elsewhere? && BookedNow(u.econ, e', role, source, b) {
      AuctionBooks(u, role, source.name, b);
    }
  }

  /** A step of payments that moves the economy to `e'` and nothing else. */
  predicate PaymentMoves(u: Payment.State, step: Payment.Step, e': Econ<Payment.Source>) {
    var t := Payment.Next(u, step);
    t == u.(econ := e')
  }

  lemma PaymentBooks(u: Payment.State, role: int, name: string, b: Bundle)
    requires CanApply(u.econ, role, b) && (role, Payment.Elsewhere(name)) !in u.econ.ledger
    ensures PaymentMoves(u, Payment.OutsideStep(role, Some(name), b), Booked(u.econ, role, Payment.Elsewhere(name), b))
  {
  }

  lemma PaymentChanges(u: Payment.State, role: int, b: Bundle)
    requires CanApply(u.econ, role, b)
    ensures PaymentMoves(u, Payment.OutsideStep(role, None, b), Applied(u.econ, role, b))
  {
  }

  /** Whatever happens outside payments, payments has a step for it. */
  lemma PaymentCovers(u: Payment.State, e': Econ<Payment.Source>)
    requires OutsideStepOf(u.econ, e', (x: Payment.Source) => !x.Elsewhere?)
    ensures e' == u.econ || exists step :: PaymentMoves(u, step, e')
  {
    if role :| role !in u.econ.gold && e' == NewRole(u.econ, role) {
      assert PaymentMoves(u, Payment.RoleStep(role), e');
    } else if role, b :| CanApply(u.econ, role, b) && e' == Applied(u.econ, role, b) {
      PaymentChanges(u, role, b);
    } else if role, source: Payment.Source, b :| source.Elsewhere? && BookedNow(u.econ, e', role, source, b) {
      PaymentBooks(u, role, source.name, b);
    }
  }

  /** A step of mail that moves the economy to `e'` and nothing else. */
  predicate InboxMoves(u: Inbox.State, step: Inbox.Step, e': Econ<Inbox.Source>) {
    var t := Inbox.Next(u, step);
    t == u.(econ := e')
  }

  lemma InboxBooks(u: Inbox.State, role: int, name: string, b: Bundle)
    requires CanApply(u.econ, role, b) && (role, Inbox.Elsewhere(name)) !in u.econ.ledger
    ensures InboxMoves(u, Inbox.OutsideStep(role, Some(name), b), Booked(u.econ, role, Inbox.Elsewhere(name), b))
  {
  }

  lemma InboxChanges(u: Inbox.State, role: int, b: Bundle)
    requires CanApply(u.econ, role, b)
    ensures InboxMoves(u, Inbox.OutsideStep(role, None, b), Applied(u.econ, role, b))
  {
  }

  /** Whatever happens outside mail, mail has a step for it. */
  lemma InboxCovers(u: Inbox.State, e': Econ<Inbox.Source>)
    requires OutsideStepOf(u.econ, e', (x: Inbox.Source) => !x.Elsewhere?)
    ensures e' == u.econ || exists step :: InboxMoves(u, step, e')
  {
    if role :| role !in u.econ.gold && e' == NewRole(u.econ, role) {
      assert InboxMoves(u, Inbox.RoleStep(role), e');
    } else if role, b :| CanApply(u.econ, role, b) && e' == Applied(u.econ, role, b) {
      InboxChanges(u, role, b);
    } else if role, source: Inbox.Source, b :| source.Elsewhere? && BookedNow(u.econ, e', role, source, b) {
      InboxBooks(u, role, source.name, b);
    }
  }
}
