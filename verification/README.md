# Bastion server: a verified model of its economy and ownership protocol

This project models the logic of a game server that runs as many processes over shared
Postgres tables, Redis sets and a NATS stream, and proves what that logic keeps in every
interleaving, crash and retry.

Each SQL transaction and each Lua script is one atomic step. A step may be executed while its
caller is told that it failed (`Net.AnswerLost`). Every concurrent part is a state machine
`Next(state, step)` with `Run(state, steps)` as its runs; a step that is not enabled changes
nothing, so a theorem about all sequences of steps is a theorem about all interleavings. The
code that changes things in place is modelled by classes and methods with loops, each proved
against the function that the state machine uses.

| file | what it models |
|---|---|
| `Base.dfy`, `Decimal.dfy` | options, results, sums over maps; decimal printing and parsing |
| `Roles.dfy` | role rows, ledger, outbox; one transaction or mailbox task as a function |
| `RoleProtocol.dfy`, `RoleTheorems.dfy` | any number of processes caching actors over one set of tables |
| `Actors.dfy`, `Manager.dfy` | the actor with its maps, the repository and the manager, in place |
| `Ledger.dfy`, `Sources.dfy`, `Seam.dfy` | balances and bookings as the sagas see them; ledger source texts; what the role protocol's answers and steps are for the sagas |
| `Auction.dfy`, `AuctionTheorems.dfy`, `AuctionGuard.dfy`, `AuctionProgress.dfy`, `AuctionStore.dfy` | the auction saga, its accounts, that it gets to a sale, the condition under which it sells once, the listings table and the memory-only auction |
| `Payment.dfy`, `Inbox.dfy` | orders and deliveries; activity progress and mail |
| `Delivery.dfy`, `Projection.dfy`, `Outbox.dfy`, `RankBoard.dfy` | the fate of a stream message, the path from a commit to the rank board, the outbox publisher as steps of it, and the trimmed board |
| `Shard.dfy`, `Ring.dfy`, `Reshard.dfy` | shard numbers, the consistent-hash ring, the resharding tool |
| `Frame.dfy`, `Mailbox.dfy`, `Match.dfy` | the frame codec and read loop, the player mailbox, the match queue |

## What is proved

**Roles.** In every run of any number of processes, with crashes, lost answers and reloads, a
row is its first snapshot with its commits applied one after the other; an idle actor that is
level with its row holds the row's snapshot; stored balances are the first snapshot plus each
`(role, source)` entry once plus the plain commits, and never negative; every dungeon pass has
an event of its own.

**Fencing.** The claim that an actor never commits after a later acquire is false of the code:
the reload after a duplicate grant adopts the current epoch
(`services/game/internal/player/actor.go:298-305`), and `ReloadReopensTheFence` is the run. The
exact condition: an actor carries its row's epoch if and only if it is the last acquirer of its
role or adopted a reload since that acquire, and some task of it can write if and only if it also
holds the row's version. So after an acquire none of an earlier actor's tasks writes until it
adopts a reload, whatever it reloaded before that acquire.

**The seam.** The sagas read a grant's answer. A grant answered with success has its source booked,
now or before, and it stays booked; a failed one changed nothing or was booked unanswered. For every
saga, reading the ledger's texts as its own sources, a successful grant is `GrantTo`, and every step
that is not a grant under one of its sources is one of its outside steps.

**Auction.** Unconditionally: settlement, finality of a sale, a complete account of gold and
items, and that the auction never creates gold. Selling a listing once is false of the code: a
buyer who was charged, stops, and retries with too little gold releases the listing, because a
grant checks the balance before it looks for a duplicate. `ListingSoldTwice` is a run of
unmodified steps that charges two roles and delivers two items out of an escrow of one. The exact
condition is two checks, one before a charge and one before a release: from a secure state a step
stays secure if and only if its check holds (`GuardIsExact`), and a run is secure throughout if
and only if all its steps are checked (`SecureExactlyWhenGuarded`). A run that breaches it can be
continued to a double sale (`BreachCanSellTwice`). Under it, a sold listing is one trade.
For the same reason a Create that stopped after its escrow was booked is completed by a retry if and only
if the seller's memory holds the quantity again (`EscrowRetryIff`); `EscrowRetryRefused` is a run that leaves
the item in escrow of a pending listing.

**Projections.** The board never overstates. A role's score is its committed level if and only if the
event of its latest pass has reached the board, and once that holds for every role the trimmed board
shows the best k of the committed levels, whatever the order and number of deliveries. That every
committed event reaches the board is false of the code: a message that fails its ten deliveries is
given up (`pkg/mq/nats.go:144-159`) and an event marked published is never leased again, so any newly
committed event can be lost (`AnyNewEventCanBeLost`, `PublishedEventLost`). The exact condition is
`ReachesBoardIff`: an event can still reach the board if and only if it is there, or is not marked
published, or a publisher holds it, or a message of it is open.

**Resharding.** No run loses a role, wherever it stops: every row it leaves has the snapshot and version
of a row the role had. That success brings every role to its new place is false of the code, in two
ways. The tool compares indexes and not databases (`tools/reshard/main.go:170`), so from one old database
to one new one it reports success and moves nobody (`ReshardToAnotherServer`). And it never asks whether
a row stream ended or broke off (`tools/reshard/main.go:159-174`), so a scan that stops early is taken for
complete, also with lists that agree (`CutScanMovesNobody`). The exact condition, role by role, is in
`RunExecute`: after success a role is at its new place if and only if it was there before, or it moves
and the scan of some database that had it reached its row. Lists that agree where they overlap meet it
for every role if all scans were read to their end. The tool also writes over whatever is at the new
place: for a role stored at its source and there, the version there survives if and only if the source
has it too or was not reached (`HomeVersionSurvivesIff`), and `SecondRunDropsNewerRow` is a run that
loses it.

**Frames.** The client's stream stays in step if and only if no write was torn. A push that is torn
by the write deadline leaves the connection open (`services/gate/internal/server.go:389-392`), and
that connection is out of step for good.

**Ring.** Monotonicity and "only the removed node's roles move" hold for every hash function,
collisions included. "Removal leaves no key without owner" and "adding then removing restores
the ring" are false in general; both are proved with the exact condition on collisions. The texts
of virtual nodes never coincide; for a hash that tells them apart the ring holds every member's virtual nodes
once each and depends only on who the members are.

**Matchmaking.** Nobody waits twice and nobody is forgotten. That nobody is in two groups is false of the
code: a player may join again while a request still holds his group (`InTwoGroups`). A run keeps everybody
in one place if and only if nobody does (`OnePlaceExactlyWhenPolite`).

**Getting somewhere.** Beside what never happens it is proved what can be done: a funded buyer's purchase
ends in a sale, a correct notification and a retry end in a delivery, a claim in a claimed mail, an open
mailbox serves every new request and can always be closed, a stale call heals itself when it is repeated, and
a trim leaves a board within its cap. What each guarded statement needs of its row, and what it leaves there,
is stated field by field.

**Documentation against code.** The comment at `pkg/protocol/frame.go:18-20` says that the length
field does not count itself; the code counts the whole frame
(`pkg/protocol/frame.go:53-64`), and so does the model.

## Model

| member | source | states |
|---|---|---|
| `RoleTheorems.NoLostUpdates` | pkg/repo/role.go:84-218 | in every run an idle actor at its row's version holds the row's snapshot; the row is its first snapshot with all commits replayed, and its version counts them |
| `RoleTheorems.EveryStepCommitsOnTop` | services/game/internal/player/manager.go:115-213 | one step leaves a row's snapshot alone or adds one commit, which is its mutation applied to the snapshot stored just before |
| `RoleTheorems.LedgerExactlyOnce` | pkg/repo/role.go:162-218 | stored gold and item counts are the first snapshot plus every ledger entry once plus the plain commits, and are not negative |
| `RoleTheorems.DungeonEventsNeverCollide` | pkg/repo/outbox.go:42-69 | a committed pass always inserts a new event, so the conflict branch is never taken |
| `RoleTheorems.OneEventPerPass` | services/game/internal/server.go:217-236 | the outbox holds exactly one event per level gained since the first snapshot |
| `RoleTheorems.EpochIsCurrentIff` | pkg/repo/role.go:84-101 | in every run an actor carries its row's epoch if and only if it is the last acquirer or adopted a reload since |
| `RoleTheorems.CanWriteIff` | pkg/repo/role.go:141-158 | some task of an idle actor writes if and only if it holds the row's version and is the last acquirer or adopted a reload since |
| `RoleTheorems.FencedActorNeverCommits` | services/game/internal/player/manager.go:179-183 | once its role is acquired anew no task of an earlier actor writes until it adopts a reload, whatever happens in between and whatever it reloaded before |
| `RoleTheorems.SaveCommitsIffCurrent` | pkg/repo/role.go:141-158 | an answered save commits if and only if version and epoch match; otherwise the reply is the stale-role error |
| `RoleTheorems.ReloadReopensTheFence` | services/game/internal/player/actor.go:298-305 | a run in which an actor fenced by a later acquire commits again after its duplicate reload |
| `RoleTheorems.AcquiredActorIsLevel` | services/game/internal/player/manager.go:70-107 | an acquire of an existing role by a new actor succeeds; the actor holds the row as stored and is the last acquirer |
| `RoleTheorems.LevelActorCommits` | services/game/internal/player/actor.go:182-191 | an actor level with its row commits any mutation its memory allows, and is level again |
| `RoleTheorems.DroppedActorIsGone` | services/game/internal/player/manager.go:179-183 | a dropped actor is gone and nobody else is affected |
| `RoleTheorems.StepsAreEconSteps` | services/game/internal/player/actor.go:273-333 | every step of the role protocol is one affordable booking, one plain change, a new role or nothing |
| `Seam.GrantAnswersTruly` | services/game/internal/player/actor.go:273-312 | a grant answered Ok booked its bundle just now, a duplicate is booked already, a failed one changed nothing or was booked unanswered |
| `Seam.SuccessIsBookedForGood` | pkg/repo/role.go:162-218 | once a grant succeeds, at once or as a duplicate, its source is booked in every later state |
| `Seam.BookedRetryIff` | services/game/internal/player/actor.go:281-298 | a retry of a booked grant succeeds if and only if the memory could afford it once more; a refused one changes nothing |
| `Seam.EscrowRetryIff` | services/game/internal/auction/service.go:116-125 | a Create stopped after its escrow is completed by a retry if and only if the seller's memory holds the quantity again |
| `Seam.EscrowRetryRefused` | services/game/internal/auction/service.go:116-125 | a run whose retry is refused with the item in escrow |
| `Seam.GrantIsGrantTo` | services/game/internal/player/manager.go:338-346 | for any saga's reading of the source texts, a successful grant does what `GrantTo` says, and a failed one that or nothing |
| `Seam.OthersAreOutside` | services/game/internal/player/manager.go:115-213 | every step that is not a grant under a saga's own source is an outside step for it |
| `Seam.AuctionReads` | services/game/internal/auction/service.go:116-190 | the texts the auction writes are read back as its sources, and no two texts as the same source |
| `Seam.PayReads` | services/pay/internal/server.go:198 | the same for payments |
| `Seam.MailReads` | services/mail/internal/server.go:200 | the same for mail |
| `Seam.AuctionCovers` | services/game/internal/auction/service.go:90-196 | the auction model has a step for every outside step |
| `Seam.PaymentCovers` | services/pay/internal/server.go:193-208 | so has the payment model |
| `Seam.InboxCovers` | services/mail/internal/server.go:181-211 | so has the mail model |
| `RoleProtocol.RunKeeps` | services/game/internal/player/manager.go:70-213 | the invariant of rows, logs, ledger, outbox, actors and epochs holds in every run |
| `Roles.DecodeInvertsEncode` | pkg/repo/role.go:103-133 | reading back a saved row gives the saved cell exactly when its level is not zero |
| `Roles.MutateKeepsSound` | services/game/internal/bag/bag.go:17-44 | no mutation makes gold or a count negative or the level less than one |
| `Roles.StoredDocumentWins` | pkg/repo/role.go:103-133 | the stored document wins over the level column field by field, missing fields read as empty, zero level, version and epoch as one |
| `Roles.BundleIsCheckedInOrder` | services/game/internal/player/actor.go:314-333 | a bundle is refused for its gold, else for its items, exactly when they do not suffice, and otherwise moves every count by its amount |
| `Roles.MutationsKeepToTheirFields` | services/game/internal/quest/progress.go:35-50 | skills rise by one, a quest is accepted once and starts at nothing, and no mutation touches another's fields |
| `Roles.PassIsWorth` | services/game/internal/dungeon/service.go:27-34 | a pass is worth one level, fifty gold, one potion and one step of the first quest if it is accepted |
| `Roles.EnsuredRole` | pkg/repo/role.go:222-231 | an existing role is left alone; a new one reads as an empty role of the given level at version and epoch one |
| `Roles.AcquiredRole` | pkg/repo/role.go:84-101 | the epoch rises by one and is told to the caller, and nothing else changes |
| `Roles.EventIdInjective` | services/game/internal/server.go:231-233 | the event id determines role and level |
| `Ledger.MutationMovesByDelta` | services/game/internal/player/actor.go:314-333 | gold and bag move by the mutation's delta, which they could afford |
| `Sources.TextInjective` | services/game/internal/auction/service.go:116-190 | the source texts of escrow, buyer, seller, payment, mail and activity grants never coincide |
| `Actors.Dict.Remove` | services/game/internal/bag/bag.go:31-44 | removal succeeds exactly when the count suffices, and an item taken to zero disappears |
| `Actors.Dict.Clone` | services/game/internal/bag/bag.go:47-53 | an equal map in fresh memory |
| `Actors.Dict.Affords` | services/game/internal/player/actor.go:318-322 | the check loop is true exactly when every negative amount is covered |
| `Actors.Dict.Shift` | services/game/internal/player/actor.go:324-331 | the apply loop, in any order of items, gives the bag shifted by the whole bundle |
| `Actors.Actor.SnapshotUnsafe` | services/game/internal/player/actor.go:149-170 | the snapshot equals the memory and shares no map with it |
| `Actors.Actor.RestoreUnsafe` | services/game/internal/player/actor.go:335-344 | memory, version and epoch become those of the snapshot |
| `Actors.Actor.ApplyBundleUnsafe` | services/game/internal/player/actor.go:314-333 | all of the bundle or an error and no change, with the error of the first failing check |
| `Actors.Actor.Perform` | services/game/internal/player/actor.go:92-138 | every task body in place does what the mutation function does, or fails without change |
| `Actors.RoleRepo.Save` | pkg/repo/role.go:141-158 | compare-and-swap on version and epoch, and what the caller learns of it |
| `Actors.RoleRepo.SaveIdempotent` | pkg/repo/role.go:162-218 | ledger entry and snapshot together, nothing for a known source, nothing for a stale cell |
| `Actors.RoleRepo.SaveWithOutbox` | pkg/repo/outbox.go:27-69 | snapshot and event together, or neither; an event without id is refused before |
| `Actors.SavedTask` | services/game/internal/player/manager.go:155-177 | tables, memory and reply after mutate, save and possible restore |
| `Actors.PassTask` | services/game/internal/player/manager.go:186-213 | the same for a dungeon pass saved with its event |
| `Actors.GrantTask` | services/game/internal/player/actor.go:273-312 | the same for a grant, including the duplicate that reloads; it counts as applied exactly when it newly committed |
| `Actors.HandleTask` | services/game/internal/player/actor.go:92-138 | acts that are not mutating change neither tables nor memory; the others are saved tasks |
| `Actors.ActsOnTheWire` | services/game/internal/player/actor.go:92-138 | which acts are served, which mutate, and what the two mutating ones do with and without an argument |
| `Managers.WorkIsAtomic` | services/game/internal/player/manager.go:115-213 | failure restores the memory, and leaves the tables unless the commit ran unanswered; success means memory equals the stored row and something was committed |
| `Managers.StrangersAreRefused` | services/game/internal/player/manager.go:70-77 | no role and a role of another shard are refused without asking the tables |
| `Managers.ServedCell` | services/game/internal/player/manager.go:78-107 | a cached actor is used as it is; without one the row is acquired first, with each way that can fail |
| `Managers.StaleCallHeals` | services/game/internal/player/manager.go:155-183 | after a stale reply the same call, with nothing failing, acquires anew and commits |
| `Managers.OneOwner` | services/game/internal/player/manager.go:110-112 | every role is owned by exactly one shard |
| `Managers.Manager.Get` | services/game/internal/player/manager.go:70-107 | refusals, reuse of the cached actor, or an acquired fresh one |
| `Managers.Manager.DropIfStale` | services/game/internal/player/manager.go:179-183 | a stale reply removes and closes exactly that actor |
| `Managers.Manager.RunCached` | services/game/internal/player/manager.go:155-213 | the work's outcome, and that the role is uncached and its actor closed exactly on a stale reply |
| `Managers.Manager.Handle` | services/game/internal/player/manager.go:115-213 | tables, cached memory and reply of a whole entry-point call |
| `Auction.RunKeeps` | services/game/internal/auction/service.go:90-196 | the invariant of listings, bookings and sagas holds in every run |
| `AuctionTheorems.Settlement` | services/game/internal/auction/service.go:116-196 | on sale or sold implies escrow booked, payout implies a charge, sold implies all three bookings, all with the listing's fixed amounts |
| `AuctionTheorems.SoldIsTerminal` | pkg/repo/auction.go:50-163 | a sold listing never changes again |
| `AuctionProgress.CreateStartsIff` | services/game/internal/auction/service.go:93-115 | a saga starts exactly for a valid request under a new key, or under its own key with the same terms while pending |
| `AuctionProgress.RequestKeyIsIdempotent` | pkg/repo/auction.go:34-48 | a new listing has the wanted terms and is pending; a retry of its key finds it unchanged and no other |
| `AuctionProgress.CreateCompletes` | services/game/internal/auction/service.go:93-125 | a seller who has the items gets an open listing with the wanted terms and the escrow booked |
| `AuctionProgress.RefusedIff` | services/game/internal/player/actor.go:281-298 | an up-to-date memory refuses a charge for gold exactly if the balance is below the price |
| `AuctionProgress.RefusedIsReleased` | services/game/internal/auction/service.go:177-181 | a refused call opens the listing again if it still holds it, and ends |
| `AuctionProgress.OpenListingCanBeSold` | services/game/internal/auction/service.go:151-196 | from every state of a guarded run a funded buyer's purchase of an open listing goes on guarded and ends with it sold to him |
| `AuctionProgress.GemIsSold` | services/game/internal/auction/service.go:90-196 | a guarded run from the start that ends in a sale |
| `AuctionTheorems.EverythingIsAccounted` | services/game/internal/auction/service.go:90-196 | role balances plus the accounts of all listings equal what the rest of the game put in, for gold and each item |
| `AuctionTheorems.AuctionNeverCreatesGold` | services/game/internal/auction/service.go:151-196 | roles hold what they were given less what is charged and not paid out, which is not negative |
| `AuctionGuard.GuardIsExact` | services/game/internal/auction/service.go:169-181 | from a secure state a step stays secure if and only if its guard holds |
| `AuctionGuard.SecureExactlyWhenGuarded` | services/game/internal/auction/service.go:169-181 | a run is secure throughout if and only if every step is guarded |
| `AuctionGuard.GuardedConservation` | services/game/internal/auction/service.go:151-196 | guarded: at most one charge per listing, items in escrow until the charge, price owed from charge to payout |
| `AuctionGuard.SoldEqualsTrade` | services/game/internal/auction/service.go:199-231 | guarded: a sold listing moved everybody's gold and items as one trade does |
| `AuctionGuard.InsecureCanSellTwice` | services/game/internal/auction/service.go:177-181 | from any insecure reachable listing another buyer can be charged as well |
| `AuctionGuard.BreachCanSellTwice` | services/game/internal/auction/service.go:177-181 | a run whose next step breaks its guard can be continued, without any stale refusal, to two charges for one listing |
| `AuctionGuard.ListingSoldTwice` | services/game/internal/player/actor.go:281-298 | an explicit run of the code that charges two roles for one listing and overdraws its escrow |
| `AuctionStore.AuctionTable.Reserve` | pkg/repo/auction.go:63-76 | reserves an open listing, or the buyer's own reservation again, and returns the row |
| `AuctionStore.StatementsFollowEdges` | pkg/repo/auction.go:50-163 | a statement touches only its row and no terms; the row goes pending to open, open to reserved, back to open or on to sold for its buyer only, or stays |
| `AuctionStore.StatementLeaves` | pkg/repo/auction.go:50-163 | what each statement needs of its row, and what it leaves there: open, reserved for this buyer, open without buyer, sold to this buyer |
| `AuctionStore.StatementTwiceIsOnce` | pkg/repo/auction.go:50-163 | a statement that succeeded succeeds again and changes nothing |
| `AuctionStore.ReservationIsExclusive` | pkg/repo/auction.go:63-163 | while a buyer holds a listing, no other buyer's statement has any effect on it |
| `AuctionStore.MemAuction.Create` | services/game/internal/auction/service.go:93-141 | succeeds exactly for a valid listing of items the seller has, and takes exactly those out of the bag |
| `AuctionStore.MemAuction.Buy` | services/game/internal/auction/service.go:152-231 | succeeds exactly if the offer exists and the buyer is another role with enough gold; then it leaves the list and gold and items move as the trade does |
| `AuctionStore.SellInMemory` | services/game/internal/auction/service.go:127-231 | listing and buying together move every role's gold and items by the one trade that a sold listing of the saga amounts to |
| `Payment.PaymentExactlyOnce` | services/pay/internal/server.go:136-244 | an order is rewarded at most once, to its own role, with the catalogue reward, after payment; delivered implies paid and rewarded |
| `Payment.BindingIsFinal` | pkg/repo/pay.go:86-131 | a bound provider transaction, the terms and the paid status never change |
| `Payment.TransactionsAreNotShared` | deploy/init.sql:53-54 | no two orders carry the same provider transaction |
| `Payment.ReconcileAddsUp` | pkg/repo/pay.go:201-215 | total is pending plus paid, and paid is delivered plus undelivered |
| `Payment.CreatingIsReported` | pkg/repo/pay.go:201-215 | creating adds one pending order to the report and nothing else |
| `Payment.PayingIsReported` | pkg/repo/pay.go:201-215 | a first payment moves one order from pending to paid and undelivered |
| `Payment.DeliveringIsReported` | pkg/repo/pay.go:201-215 | a first delivery moves one order from undelivered to delivered |
| `Payment.CreatedIsPending` | pkg/repo/pay.go:49-55 | an order is created exactly under a new number, pending, unbound and undelivered, with its terms |
| `Payment.OrderIsMadeIff` | services/pay/internal/server.go:101-134 | a request makes an order exactly for a legal role and a positive amount |
| `Payment.PaidIff` | pkg/repo/pay.go:86-131 | a notification is accepted exactly if product, currency and amount are the order's, the order is unbound or bound to this transaction and no other order carries it; the order is then paid and bound |
| `Payment.OnlyOwnNotificationPays` | pkg/repo/pay.go:110-112 | in every run an order becomes paid only by a notification with its own product, currency and amount |
| `Payment.NoNeedlessDelivery` | services/pay/internal/server.go:163-181 | no delivery starts for an order that is delivered or not paid, or on a notification for another role |
| `Payment.NotificationDelivers` | services/pay/internal/server.go:154-208 | a correct notification ends with the order paid, rewarded and delivered |
| `Payment.RetryDelivers` | services/pay/internal/server.go:217-244 | so does a retry of a paid one |
| `Payment.RewardIsWorth` | services/pay/internal/server.go:35-39 | the catalogue, and ten gold per unit outside it |
| `Payment.PaidTwiceIsOnce` | pkg/repo/pay.go:86-131 | a repeated notification succeeds again and changes nothing |
| `Payment.PaidBindsForGood` | pkg/repo/pay.go:86-131 | it touches no other order, no terms and no delivery; afterwards the transaction is refused elsewhere and other transactions here |
| `Payment.DeliveredOnlyIfPaid` | pkg/repo/pay.go:138-146 | refused exactly for an order that is not paid; touches nothing else and may be repeated |
| `Inbox.ProgressIsSumOfDistinct` | pkg/repo/activity.go:17-58 | event-fed progress is the sum of the deltas of the distinct event ids |
| `Inbox.OrderAndRepetitionDoNotMatter` | pkg/repo/activity.go:17-58 | two delivery sequences with the same events give the same progress |
| `Inbox.ActivityRepo.AddProgressEvent` | pkg/repo/activity.go:17-58 | inbox marker and progress together, or only a read for a known event |
| `Inbox.OneMailPerEvent` | pkg/repo/mail.go:24-51 | every consumed event has exactly one mail, and no mail carries an event that was not consumed, beside any mails sent over HTTP |
| `Inbox.InsertedMail` | pkg/repo/mail.go:24-51 | a new event adds one unclaimed mail for its recipient with its attachment, a known one nothing |
| `Inbox.SentMail` | services/mail/internal/server.go:108-124 | a mail sent over HTTP is one more unclaimed mail as it was sent |
| `Inbox.MarkedMails` | pkg/repo/mail.go:146-160 | marking claims exactly the given mails and leaves everything else |
| `Inbox.ClaimReadsOwnMails` | services/mail/internal/server.go:181-198 | a claim starts exactly on unclaimed mails of its own role |
| `Inbox.ClaimCompletes` | services/mail/internal/server.go:181-211 | a claim ends with the mail claimed and its reward booked |
| `Inbox.MailRewardedOnce` | services/mail/internal/server.go:181-281 | a mail is rewarded at most once, to its role, with its attachment; claimed implies rewarded |
| `Delivery.FateOfMessage` | pkg/mq/nats.go:117-162 | exactly when a message is still open, handled, or dropped without effect and without dead letter |
| `Delivery.GivesUpAfterTen` | pkg/mq/nats.go:30 | a message that always fails is asked for again nine times and lost with the tenth delivery |
| `Outbox.PicksAreTheFirst` | pkg/repo/outbox.go:85-97 | a row is leased exactly when it is pending and fewer than the limit come before it |
| `Outbox.ClaimLeasesItsPicks` | pkg/repo/outbox.go:86-98 | a reservation leases exactly its picks, for thirty seconds, and changes nothing else |
| `Outbox.LeaseRunsOut` | pkg/repo/outbox.go:86-94 | a row taken and not published can be taken again exactly from the end of its lease on |
| `Outbox.SharesCoverLimit` | pkg/repo/outbox.go:75-83 | the pools' shares cover the limit and none is larger than that takes |
| `Outbox.ReservedAreReal` | pkg/repo/outbox.go:84-118 | the returned rows are exactly the picked ones of every pool, each once |
| `Outbox.NoDoubleClaim` | pkg/repo/outbox.go:74-120 | until its lease ends no later reservation takes a leased row, whatever reservations, marks and new rows come in between |
| `Outbox.OutboxRepo.ReserveOutbox` | pkg/repo/outbox.go:74-120 | exactly the first pending rows of every pool, up to its share, are leased and returned; a failure at one pool returns nothing and leaves the earlier leases |
| `Outbox.MarkPublishesOneRow` | pkg/repo/outbox.go:124-133 | the named row is published and keeps event and lease, every other row of every pool stays, marking again changes nothing |
| `Outbox.PublishOutboxBatch` | services/game/internal/server.go:501-518 | tables and stream after one round for every failing call, and success exactly if nothing fails |
| `Outbox.PublisherIsSystemRun` | services/game/internal/server.go:501-518 | one round of any publisher, whatever fails, is a run of the lease, send and mark steps of the whole system |
| `Outbox.NoMarkAheadOfStream` | services/game/internal/server.go:501-518 | in a reachable state every marked row has a message |
| `Outbox.BatchSendsItsRows` | services/game/internal/server.go:501-518 | a batch sends nothing but its rows, and marks all of them if nothing fails |
| `Projection.RankNeverOverstates` | services/game/internal/server.go:501-518 | a shown score is at most the level its role has committed |
| `Projection.TrimBoundsBoard` | services/rank/internal/server.go:100-121 | after a trim the served board has at most the cap's number of members |
| `Projection.RankCatchesUpIff` | services/rank/internal/server.go:71-97 | an untrimmed score is the committed level if and only if the event of the latest pass has reached the board |
| `Projection.LeaderboardIsCommittedLevels` | services/rank/internal/server.go:71-121 | once the latest event of each role is delivered the trimmed top-k is the top-k of the committed levels |
| `Projection.ReachesBoardIff` | pkg/mq/nats.go:117-162 | a committed event can still reach the board if and only if it is there, or not marked published, or held by a publisher, or has an open message |
| `Projection.AnyNewEventCanBeLost` | pkg/mq/nats.go:144-159 | any event nobody has taken up yet can be published and then fail all its deliveries, after which nothing brings it to the board |
| `Projection.PublishedEventLost` | pkg/mq/nats.go:144-159 | a run from the start that ends there |
| `Projection.PublishedWasSent` | pkg/repo/outbox.go:74-133 | an event marked published has a message, as it was committed |
| `Projection.RunKeeps` | services/game/internal/server.go:501-518 | the invariant of outbox, stream and boards holds in every run |
| `RankBoard.TopIsByRank` | services/rank/internal/server.go:152-180 | the i-th row of the top is the member of rank i with its score |
| `RankBoard.FullBoardIsBest` | services/rank/internal/server.go:71-97 | an untrimmed board holds exactly those who scored, each with the best score |
| `RankBoard.TrimKeepsTheBest` | services/rank/internal/server.go:111-114 | a trim keeps as many members as the cap allows, with their scores, and every removed one has at least that many over it |
| `RankBoard.TrimEventTrims` | services/rank/internal/server.go:100-121 | right after a trim the trimmed board is within the cap, and the other one does not notice |
| `RankBoard.HigherScoreFirst` | services/rank/internal/server.go:152-180 | a higher score is shown before a lower one |
| `RankBoard.LaterMemberFirst` | services/rank/internal/server.go:152-180 | among equal scores the member that sorts later at the first difference is shown first |
| `RankBoard.LongerMemberFirst` | services/rank/internal/server.go:152-180 | and a member that continues another before it |
| `RankBoard.TrimmedTopIsFullTop` | services/rank/internal/server.go:71-121 | for every interleaving of scores and trims and every k up to the cap, both boards show the same top-k |
| `RankBoard.RankServer.WriteScore` | services/rank/internal/server.go:71-97 | zone then global board, stopping at the first failure; no other board changes |
| `RankBoard.RankServer.TrimAll` | services/rank/internal/server.go:100-121 | one round trims every known key whose trim does not fail and no other; those boards are then within the cap |
| `Shard.ForRole` | pkg/shard/shard.go:25-34 | the result is a legal shard number, also for negative ids and counts |
| `Shard.ForRoleIsResidue` | pkg/shard/shard.go:25-34 | shard and role differ by a multiple of the count |
| `Shard.RemIsWhatIsLeft` | tools/reshard/main.go:170 | the remainder is smaller than the divisor, has the sign of the dividend, and differs from it by a multiple |
| `Ring.AddOnlyMovesToNewNodes` | pkg/shard/consistent.go:46-59 | for any hash, every role keeps its node or goes to one just added |
| `Ring.LandingIsSuccessor` | pkg/shard/consistent.go:79-89 | the key found is the cyclic successor of the hash |
| `Ring.AddKeepsWhole` | pkg/shard/consistent.go:46-59 | adding keeps every key owned by a member |
| `Ring.WholeRingAnswers` | pkg/shard/consistent.go:79-89 | such a ring answers with a member unless it is empty |
| `Ring.RemoveMovesOnlyItsOwn` | pkg/shard/consistent.go:62-76 | for any hash, removal moves no role of another node |
| `Ring.RemoveKeepsWholeIff` | pkg/shard/consistent.go:62-76 | removal leaves no key without owner if and only if none of the node's hashes was hit twice |
| `Ring.StrayKeyAnswersNobody` | pkg/shard/consistent.go:62-89 | otherwise roles on that hash get no node at all |
| `Ring.AddThenRemoveRestoresIff` | pkg/shard/consistent.go:46-76 | adding then removing a fresh node restores the ring if and only if its virtual nodes hit neither each other nor an existing key |
| `Ring.VirtualTextInjective` | pkg/shard/consistent.go:53 | the hashed text determines node and number of a virtual node, whatever the names |
| `Ring.AddKeepsMade` | pkg/shard/consistent.go:46-59 | if the hash tells the texts apart, adding a node gives it all its virtual nodes, each once |
| `Ring.RemoveKeepsMade` | pkg/shard/consistent.go:62-76 | and removing it takes away those and no others |
| `Ring.MadeHasAllKeys` | pkg/shard/consistent.go:46-59 | such a ring has as many keys as members times replicas |
| `Ring.MadeIsDetermined` | pkg/shard/consistent.go:46-76 | and depends only on who its members are |
| `Ring.FreshNodeComesAndGoes` | pkg/shard/consistent.go:46-76 | so adding and removing a fresh node restores it |
| `Ring.ShardsAreMade` | pkg/shard/consistent.go:97-103 | the ring of a shard count is such a ring |
| `Ring.ShardsAnswer` | pkg/shard/consistent.go:97-103 | every role has one of the shards |
| `Ring.RescaleMovesOnlyToNewShards` | pkg/shard/consistent.go:97-103 | growing the shard count moves a role only onto a new shard |
| `Ring.HashRing.Add` | pkg/shard/consistent.go:46-59 | the nested loops and the sort give the specified ring |
| `Ring.HashRing.Remove` | pkg/shard/consistent.go:62-76 | the filter over its own buffer gives the specified ring |
| `Ring.HashRing.Get` | pkg/shard/consistent.go:79-89 | binary search with wraparound equals the linear scan |
| `Ring.RingForShards` | pkg/shard/consistent.go:97-103 | the loop builds the ring of the shard count |
| `Reshard.MoveOne` | tools/reshard/main.go:181-223 | whatever statement fails, only this role is affected, and its rows are untouched, copied, or copied and deleted; success means all of it |
| `Reshard.StopKeeps` | tools/reshard/main.go:118-230 | wherever a run stops a role is still stored, with snapshots and versions it had |
| `Reshard.HomeIff` | tools/reshard/main.go:154-227 | a role is at its home after all scans if and only if it was before, or it moves and the scan of a database that had it reached its row |
| `Reshard.ElsewhereIff` | tools/reshard/main.go:211-221 | elsewhere a row stays as it was, and is gone exactly if deletion is on, the role moves and that database's scan reached it |
| `Reshard.HomeVersionSurvivesIff` | tools/reshard/main.go:190-201 | for a role stored at its source and its home, the home's version survives if and only if the source has it too or was not reached |
| `Reshard.RunExecute` | tools/reshard/main.go:118-230 | at every exit no role is lost; after success every role's rows are those of its specification, at home and elsewhere; without deletion no row goes; succeeds if no statement fails and deletion scans no home |
| `Reshard.ReshardAligned` | tools/reshard/main.go:118-230 | for lists that agree where they overlap a routed role is home after success if and only if it was or a scan reached it; all are if every scan was read to its end |
| `Reshard.ReshardByModulus` | tools/reshard/main.go:62-68 | with modulus routing success puts every role whose scans reached it at its shard in the new layout |
| `Reshard.ReshardToAnotherServer` | tools/reshard/main.go:170 | from one old database to one new one the tool reports success and moves nobody |
| `Reshard.CutScanMovesNobody` | tools/reshard/main.go:159-174 | with agreeing lists and a row stream that breaks off the tool reports success and moves nobody |
| `Reshard.SecondRunDropsNewerRow` | tools/reshard/main.go:190-221 | a deleting run replaces a newer row at the new place by the older one and reports success |
| `FrameCodec.FrameStreamRoundTrip` | services/gate/internal/server.go:286-343 | reading the bytes of any list of frames gives the list and leaves no byte |
| `FrameCodec.ParsedIsConsumed` | services/gate/internal/server.go:286-343 | the frames read from any stream encode to exactly the bytes consumed |
| `FrameCodec.FramingIsUnique` | services/gate/internal/server.go:286-343 | a stream splits into frames and an incomplete rest in one way only |
| `FrameCodec.DecodeInvertsWire` | pkg/protocol/frame.go:75-85 | decoding an encoded frame gives the frame |
| `FrameCodec.PayloadLimit` | pkg/protocol/frame.go:51-57 | a frame fits exactly up to 65529 bytes of payload |
| `FrameCodec.WireLayout` | pkg/protocol/frame.go:61-65 | whole length, command and action come first, higher byte first, then the payload |
| `FrameCodec.EncodeInto` | pkg/protocol/frame.go:51-67 | the result is the frame whatever the buffer held; refused exactly when it does not fit |
| `FrameCodec.ClientConn.Write` | services/gate/internal/server.go:70-85 | a prefix of the frame goes out, and success means all of it |
| `FrameCodec.InSyncIffNoneTorn` | services/gate/internal/server.go:70-85 | the client reads the reported frames and all later ones if and only if no write was torn |
| `FrameCodec.FramesBeforeTearArrive` | services/gate/internal/server.go:70-85 | the frames reported before the first torn write arrive whatever follows |
| `FrameCodec.ReadLoop` | services/gate/internal/server.go:286-343 | over any input the loop queues exactly the frames of the stream, and reusing the buffer changes none of them |
| `Mailbox.AcceptedRunOnceInOrder` | pkg/actor/mailbox.go:36-99 | accepted tasks run once, one at a time and in acceptance order, all of them once the loop has ended; nothing is sent after close |
| `Mailbox.RefusedNeverRun` | pkg/actor/mailbox.go:48-88 | rejected and cancelled tasks have not run |
| `Mailbox.RefusalIsFinal` | pkg/actor/mailbox.go:48-88 | and never will |
| `Mailbox.RefusedOnlyIf` | pkg/actor/mailbox.go:48-88 | a request is rejected only if the mailbox was closed when it began, and cancelled only by its own caller, if it is a call |
| `Mailbox.OpenMailboxServes` | pkg/actor/mailbox.go:48-88 | from every state that is neither closed nor being closed a new request can be accepted, run and, if it is a call, return |
| `Mailbox.WaitingSenderServed` | pkg/actor/mailbox.go:48-88 | so can one that waits for room |
| `Mailbox.CanAlwaysClose` | pkg/actor/mailbox.go:91-99 | from every state the mailbox can be closed and its loop ended with everything accepted run, without turning a sender away |
| `Mailbox.TaskTakesEffect` | pkg/actor/mailbox.go:36-42 | a finished task has changed the player as its function says and put a call's result into its channel |
| `Mailbox.CancelGivesUp` | pkg/actor/mailbox.go:76-83 | a cancelled call is not accepted and gives up its lock; a post cannot be cancelled |
| `Mailbox.CallReturnsItsOwnResult` | pkg/actor/mailbox.go:61-88 | a call returns its own task's result, after exactly the tasks accepted before it |
| `Mailbox.AcceptedCanFinish` | pkg/actor/mailbox.go:36-42 | from every state the consumer alone can finish all accepted tasks, also after close |
| `Match.ParseInvertsMemberKey` | services/match/internal/crosspool.go:69-112 | every member key parses back to its zone and role |
| `Match.PoolKeyInjective` | services/match/internal/crosspool.go:58-60 | different scopes or modes never share a queue |
| `Match.JoinTakesTheFirst` | services/match/internal/crosspool.go:17-33 | popped group and queue are the old queue without the joiner, in order, then the joiner; nobody twice |
| `Match.RequeuePutsGroupLast` | services/match/internal/crosspool.go:75-87 | the group goes to the end in its order and everybody else keeps his place |
| `Match.NobodyIsForgotten` | services/match/internal/server.go:165-202 | in every run nobody waits twice, every group has the needed number of different parsing members, everybody who joined is accounted for |
| `Match.GroupIsSettled` | services/match/internal/server.go:175-202 | a request that ends lets its group go into a room, back to the queue, or lost |
| `Match.OnePlaceIff` | services/match/internal/crosspool.go:17-33 | a step keeps everybody in one group or the queue if and only if it is no join by somebody whose group is still held |
| `Match.OnePlaceExactlyWhenPolite` | services/match/internal/server.go:165-202 | a run keeps it throughout if and only if every step does |
| `Match.InTwoGroups` | services/match/internal/server.go:165-202 | a run that has one player in two groups |
| `Match.CompensationRestoresGroup` | services/match/internal/server.go:175-195 | a failure before the battle room, with a requeue that executes, puts the whole group back |
| `Match.CrossPool.Join` | services/match/internal/crosspool.go:127-150 | only its queue changes, as the script says, and every popped member parses |
| `Match.CrossPool.Requeue` | services/match/internal/crosspool.go:75-87 | all members go back, or nothing changes |
| `Match.HandleCrossJoin` | services/match/internal/server.go:165-202 | queue and reply of one request for each way it can end |

## Left out

- int32 and int64 wraparound: numbers are mathematical integers; scores are assumed exact as in the 2^53 range of a Redis score.
- `grant.Parse`, JSON, HTTP handlers, discovery, TLS, metrics, tracing and configuration loading.
- Actors without a repository (the in-memory `applied` map of sources) and `WithPlayer`, which changes memory without saving; the memory-only auction that uses it is modelled as one trade, its ignored save errors are not.
- The asynchronous saver, eviction clock and flush on shutdown: they add saves of unchanged memory and dropped actors, which are steps of the role protocol already.
- Auction: listing ids are given by the step instead of a database sequence, the cancelled status is not modelled, and a refusal for too little gold by a stale memory may happen at any time.
- Other code that books grants is one `Elsewhere` step with sources of its own; activity claims are part of it.
- Payment: signature checks, the legacy unverified payment mark, the amounts of the reconcile report and the batching of retries.
- `Projection.RankCatchesUpIff`: it is about a board fed by dungeon events; scores posted over HTTP are not modelled.
- Message stream: the length of the deduplication window (a resend may or may not be merged with an earlier message) and the retention limit; dead letters are kept, and nothing in the repository replays them.
- `Delivery.FateOfMessage`: a delivery whose metadata cannot be read counts as its real number, while the code takes it for the first.
- `Reshard.RunExecute`: the batch size is positive (zero makes the tool loop forever, a negative one makes it panic), and nobody else writes during the run; connecting and printing are left out.
- `FrameCodec.ReadLoop`: the message rate limit, deadlines and cancellation of the connection are not modelled.
- `Managers.Manager.Get`: concurrent first access, with its load lock and the actor that loses the race, is not modelled; calls of one manager follow each other.
- `AuctionStore.MemAuction.Buy`: the errors of the two saves after the trade, which the code ignores, are not modelled.
- A call with a nil function, which panics in the consumer; no caller passes one.
- Mailbox: fairness of the lock and of the scheduler; a waiting writer may be overtaken by readers in the model.
- Match: room records, tickets and their expiry; the local matchmaking without Redis.
- The ring's hash is any function from text to numbers; CRC-32 itself is not modelled.
