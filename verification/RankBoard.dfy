/**
 * The rank board: scores that only rise, a background trim to the best `cap` members, and
 * the top-k read. Score events arrive duplicated and out of order.
 */
module RankBoard {
  type Board = map<string, int>

  /* ---------- the order of a sorted set ---------- */

  /** Byte-wise order of members, used between equal scores. */
  predicate Before(a: string, b: string) {
    b != [] && (a == [] || a[0] < b[0] || (a[0] == b[0] && Before(a[1..], b[1..])))
  }

  lemma {:induction false} BeforeTotal(a: string, b: string)
    ensures a == b || Before(a, b) || Before(b, a)
  {
    if a != [] && b != [] && a[0] == b[0] {
      BeforeTotal(a[1..], b[1..]);
      assert a == [a[0]] + a[1..] && b == [b[0]] + b[1..];
    }
  }

  lemma {:induction false} BeforeStrict(a: string, b: string)
    ensures !(Before(a, b) && Before(b, a)) && !Before(a, a)
  {
    if a != [] {
      BeforeStrict(a[1..], a[1..]);
      if b != [] {
        BeforeStrict(a[1..], b[1..]);
      }
    }
  }

  lemma {:induction false} BeforeTransitive(a: string, b: string, c: string)
    requires Before(a, b) && Before(b, c)
    ensures Before(a, c)
  {
    if a != [] && a[0] == b[0] && b[0] == c[0] {
      BeforeTransitive(a[1..], b[1..], c[1..]);
    }
  }

  /** (score, member) pairs, higher first. */
  predicate Over(s: int, a: string, t: int, b: string) {
    s > t || (s == t && Before(b, a))
  }

  function Above(board: Board, m: string): set<string>
    requires m in board
  {
    set x | x in board && Over(board[x], x, board[m], m)
  }

  /** Position from the top, counted from zero. */
  function Rank(board: Board, m: string): nat
    requires m in board
  {
    |Above(board, m)|
  }

  lemma Larger<T>(a: set<T>, b: set<T>)
    requires a <= b
    ensures |a| <= |b| && (a != b ==> |a| < |b|)
  {
    assert b == a + (b - a);
    assert |b| == |a| + |b - a|;
    if a != b {
      var x :| x in b - a;
    }
  }

  /** A member above another has a smaller rank, and everything above it is above the other too. */
  lemma RankFollowsOrder(board: Board, x: string, m: string)
    requires x in board && m in board && Over(board[x], x, board[m], m)
    ensures Above(board, x) < Above(board, m) && Rank(board, x) < Rank(board, m)
  {
    forall y | y in Above(board, x) ensures y in Above(board, m) {
      if board[y] == board[x] == board[m] {
        BeforeTransitive(m, x, y);
      }
    }
    BeforeStrict(x, x);
    assert x in Above(board, m) && x !in Above(board, x);
    Larger(Above(board, x), Above(board, m));
  }

  lemma RankIsUnique(board: Board, a: string, b: string)
    requires a in board && b in board && Rank(board, a) == Rank(board, b)
    ensures a == b
  {
    BeforeTotal(a, b);
    if a != b {
      if Over(board[a], a, board[b], b) {
        RankFollowsOrder(board, a, b);
      } else {
        RankFollowsOrder(board, b, a);
      }
    }
  }

  /* ---------- the three operations ---------- */

  /** ZADD GT: a new member is added, a known one only ever rises. */
  function Write(board: Board, m: string, score: int): Board {
    if m in board && board[m] >= score then board else board[m := score]
  }

  /** ZREMRANGEBYRANK 0 -(cap+1): keep the best `cap`. */
  function Trim(board: Board, cap: nat): Board {
    map m | m in board && Rank(board, m) < cap :: board[m]
  }

  /** `m` ranks below nobody. */
  predicate IsBest(board: Board, m: string) {
    m in board && Above(board, m) == {}
  }

  lemma {:induction false} BestExists(board: Board, m: string)
    requires m in board
    ensures exists b :: IsBest(board, b)
    decreases Rank(board, m)
  {
    if Above(board, m) == {} {
      assert IsBest(board, m);
    } else {
      var x :| x in Above(board, m);
      RankFollowsOrder(board, x, m);
      BestExists(board, x);
    }
  }

  /** ZREVRANGE 0 k-1 WITHSCORES. */
  ghost function Top(board: Board, k: nat): seq<(string, int)>
    decreases k
  {
    if k == 0 || |board| == 0 then []
    else
      var some :| some in board.Keys;
      BestExists(board, some);
      var m :| IsBest(board, m);
      [(m, board[m])] + Top(board - {m}, k - 1)
  }

  /** The first row of the top is a best member, the rest is the top of the board without it. */
  lemma {:induction false} TopUnfolds(board: Board, k: nat) returns (m: string)
    requires k != 0 && |board| != 0
    ensures IsBest(board, m) && Top(board, k) == [(m, board[m])] + Top(board - {m}, k - 1)
    ensures |board - {m}| == |board| - 1
  {
    var some :| some in board.Keys;
    BestExists(board, some);
    m :| IsBest(board, m) && Top(board, k) == [(m, board[m])] + Top(board - {m}, k - 1);
    assert (board - {m}).Keys == board.Keys - {m};
    assert |board - {m}| == |(board - {m}).Keys| && |board| == |board.Keys|;
  }

  ghost predicate IsRow(board: Board, row: (string, int), i: nat) {
    row.0 in board && row.1 == board[row.0] && Rank(board, row.0) == i
  }

  lemma {:induction false} TopLength(board: Board, k: nat)
    ensures |Top(board, k)| == if k <= |board| then k else |board|
    decreases k
  {
    if k != 0 && |board| != 0 {
      var m := TopUnfolds(board, k);
      TopLength(board - {m}, k - 1);
    }
  }

  /** The i-th row of the top is the member of rank i with its score. */
  lemma {:induction false} TopIsByRank(board: Board, k: nat, i: nat)
    requires i < |Top(board, k)|
    ensures IsRow(board, Top(board, k)[i], i)
    decreases k
  {
    var m := TopUnfolds(board, k);
    if i > 0 {
      var rest := board - {m};
      TopIsByRank(rest, k - 1, i - 1);
      RowWithoutBest(board, m, Top(rest, k - 1)[i - 1], i - 1);
    }
  }

  lemma RowWithoutBest(board: Board, m: string, row: (string, int), i: nat)
    requires IsBest(board, m) && IsRow(board - {m}, row, i)
    ensures IsRow(board, row, i + 1)
  {
    RankWithoutBest(board, m, row.0);
  }

  lemma RankWithoutBest(board: Board, m: string, x: string)
    requires IsBest(board, m) && x in board && x != m
    ensures Rank(board, x) == Rank(board - {m}, x) + 1
  {
    BeforeTotal(m, x);
    assert x !in Above(board, m);
    assert Above(board, x) == Above(board - {m}, x) + {m};
  }

  /* ---------- the trimmed board against the board that is never trimmed ---------- */

  datatype Event = Score(member: string, score: int) | TrimNow

  function Apply(board: Board, e: Event, cap: nat, trims: bool): Board {
    match e
    case Score(m, s) => Write(board, m, s)
    case TrimNow => if trims then Trim(board, cap) else board
  }

  function Play(events: seq<Event>, cap: nat, trims: bool): Board {
    if events == [] then map[]
    else Apply(Play(events[..|events| - 1], cap, trims), events[|events| - 1], cap, trims)
  }

  predicate Scores(e: Event, m: string) { e.Score? && e.member == m }

  /** A board that is never trimmed holds exactly the members that scored, each with its best score:
      repeated and reordered events make no difference. */
  lemma {:induction false} FullBoardIsBest(events: seq<Event>, cap: nat, m: string)
    ensures var full := Play(events, cap, false);
            && (m in full <==> exists i :: 0 <= i < |events| && Scores(events[i], m))
            && (m in full ==> forall i :: 0 <= i < |events| && Scores(events[i], m) ==> events[i].score <= full[m])
            && (m in full ==> exists i :: 0 <= i < |events| && Scores(events[i], m) && events[i].score == full[m])
  {
    if events != [] {
      var n := |events| - 1;
      FullBoardIsBest(events[..n], cap, m);
      assert forall i :: 0 <= i < n ==> events[..n][i] == events[i];
      if Scores(events[n], m) {
        assert m in Play(events, cap, false);
      }
    }
  }

  /** The trimmed board never overstates, and is exact for everybody who could be among the best `cap`. */
  predicate Shadows(small: Board, full: Board, cap: nat) {
    && (forall m :: m in small ==> m in full && small[m] <= full[m])
    && (forall m :: m in full ==> (m in small && small[m] == full[m]) || Rank(full, m) >= cap)
  }

  lemma WriteOnlyLowersOthers(board: Board, m: string, score: int, x: string)
    requires x in board && x != m
    ensures x in Write(board, m, score) && Rank(Write(board, m, score), x) >= Rank(board, x)
  {
    assert Above(board, x) <= Above(Write(board, m, score), x);
    Larger(Above(board, x), Above(Write(board, m, score), x));
  }

  lemma WriteShadows(small: Board, full: Board, cap: nat, m: string, score: int)
    requires Shadows(small, full, cap)
    ensures Shadows(Write(small, m, score), Write(full, m, score), cap)
  {
    var small', full' := Write(small, m, score), Write(full, m, score);
    forall x | x in full' ensures (x in small' && small'[x] == full'[x]) || Rank(full', x) >= cap {
      if x != m {
        WriteOnlyLowersOthers(full, m, score, x);
      }
    }
  }

  lemma TrimShadows(small: Board, full: Board, cap: nat)
    requires Shadows(small, full, cap)
    ensures Shadows(Trim(small, cap), full, cap)
  {
    var small' := Trim(small, cap);
    forall m | m in full ensures (m in small' && small'[m] == full[m]) || Rank(full, m) >= cap {
      if m in small && small[m] == full[m] && Rank(small, m) >= cap {
        assert Above(small, m) <= Above(full, m);
        Larger(Above(small, m), Above(full, m));
      }
    }
  }

  lemma {:induction false} PlayShadows(events: seq<Event>, cap: nat)
    ensures Shadows(Play(events, cap, true), Play(events, cap, false), cap)
  {
    if events != [] {
      var rest, e := events[..|events| - 1], events[|events| - 1];
      PlayShadows(rest, cap);
      match e
      case Score(m, s) => WriteShadows(Play(rest, cap, true), Play(rest, cap, false), cap, m, s);
      case TrimNow => TrimShadows(Play(rest, cap, true), Play(rest, cap, false), cap);
    }
  }

  lemma RowIsUnique(board: Board, a: (string, int), b: (string, int), i: nat)
    requires IsRow(board, a, i) && IsRow(board, b, i)
    ensures a == b
  {
    RankIsUnique(board, a.0, b.0);
  }

  /** Among the best `cap` of the full board, ranks agree. */
  lemma SameRank(small: Board, full: Board, cap: nat, m: string)
    requires Shadows(small, full, cap) && m in full && Rank(full, m) < cap
    ensures m in small && small[m] == full[m] && Rank(small, m) == Rank(full, m)
  {
    forall x | x in Above(full, m) ensures x in Above(small, m) {
      RankFollowsOrder(full, x, m);
    }
    assert Above(small, m) == Above(full, m);
  }

  /** For every interleaving of duplicated and reordered scores with trims, and every k up to the
      cap, the trimmed board shows the same top-k, in the same order and with the same scores, as a
      board that is never trimmed. */
  lemma TrimmedTopIsFullTop(events: seq<Event>, cap: nat, k: nat)
    requires k <= cap
    ensures Top(Play(events, cap, true), k) == Top(Play(events, cap, false), k)
  {
    PlayShadows(events, cap);
    SameTop(Play(events, cap, true), Play(events, cap, false), cap, k);
  }

  lemma SameRow(small: Board, full: Board, cap: nat, row: (string, int), i: nat)
    requires Shadows(small, full, cap) && IsRow(full, row, i) && i < cap
    ensures IsRow(small, row, i)
  {
    SameRank(small, full, cap, row.0);
  }

  lemma SameTop(small: Board, full: Board, cap: nat, k: nat)
    requires Shadows(small, full, cap) && k <= cap
    ensures Top(small, k) == Top(full, k)
  {
    var a, b := Top(small, k), Top(full, k);
    TopLength(small, k);
    TopLength(full, k);
    forall i | 0 <= i < |b| ensures IsRow(small, b[i], i) {
      TopIsByRank(full, k, i);
      SameRow(small, full, cap, b[i], i);
    }
    Larger(small.Keys, full.Keys);
    assert |small| == |small.Keys| && |full| == |full.Keys|;
    AtLeastSoMany(small, seq(|b|, i requires 0 <= i < |b| => b[i].0));
    forall i | 0 <= i < |b| ensures a[i] == b[i] {
      TopIsByRank(small, k, i);
      RowIsUnique(small, a[i], b[i], i);
    }
  }

  /** Members of ranks 0, 1, 2, ... are that many members. */
  lemma {:induction false} AtLeastSoMany(board: Board, ms: seq<string>)
    requires forall i :: 0 <= i < |ms| ==> ms[i] in board && Rank(board, ms[i]) == i
    ensures |ms| <= |board|
  {
    if ms != [] {
      var last := ms[|ms| - 1];
      BeforeStrict(last, last);
      assert last !in Above(board, last);
      Larger(Above(board, last) + {last}, board.Keys);
      assert |Above(board, last) + {last}| == |ms|;
      assert |board| == |board.Keys|;
    }
  }

  /* ---------- what a trim removes ---------- */

  /** The members of the first n ranks. */
  function Members(rows: seq<(string, int)>): set<string> { set i | 0 <= i < |rows| :: rows[i].0 }

  lemma {:induction false} DistinctMembers(rows: seq<(string, int)>)
    requires forall i, j :: 0 <= i < j < |rows| ==> rows[i].0 != rows[j].0
    ensures |Members(rows)| == |rows|
  {
    if rows != [] {
      var front, last := rows[..|rows| - 1], rows[|rows| - 1].0;
      assert forall i :: 0 <= i < |front| ==> front[i] == rows[i];
      DistinctMembers(front);
      assert Members(rows) == Members(front) + {last} by {
        assert last == rows[|rows| - 1].0;
      }
      assert last !in Members(front);
    }
  }

  /** A rank is smaller than the number of members. */
  lemma RankBelowSize(board: Board, m: string)
    requires m in board
    ensures Rank(board, m) < |board|
  {
    BeforeStrict(m, m);
    assert Above(board, m) <= board.Keys - {m};
    Larger(Above(board, m), board.Keys - {m});
    assert |board| == |board.Keys|;
  }

  /** A trim keeps exactly the members with fewer than `cap` over them, with their scores: as many as the
      cap allows, and every removed member has at least `cap` members over it. */
  lemma TrimKeepsTheBest(board: Board, cap: nat)
    ensures var t := Trim(board, cap);
            && |t| == (if |board| <= cap then |board| else cap)
            && (forall m :: m in t ==> m in board && t[m] == board[m] && |Above(board, m)| < cap)
            && (forall m :: m in board && m !in t ==> |Above(board, m)| >= cap)
  {
    var t, rows := Trim(board, cap), Top(board, cap);
    TopLength(board, cap);
    forall i | 0 <= i < |rows| ensures IsRow(board, rows[i], i) {
      TopIsByRank(board, cap, i);
    }
    DistinctMembers(rows);
    forall m | m in board && Rank(board, m) < cap ensures m in Members(rows) {
      var i := Rank(board, m);
      RankBelowSize(board, m);
      RankIsUnique(board, m, rows[i].0);
      assert rows[i].0 == m;
    }
    assert t.Keys == Members(rows);
    assert |t| == |t.Keys|;
  }

  /** Right after a trim the trimmed board has at most `cap` members; the other one does not notice. */
  lemma TrimEventTrims(events: seq<Event>, cap: nat)
    ensures |Play(events + [TrimNow], cap, true)| <= cap
    ensures Play(events + [TrimNow], cap, false) == Play(events, cap, false)
  {
    assert (events + [TrimNow])[..|events|] == events;
    TrimKeepsTheBest(Play(events, cap, true), cap);
  }

  /* ---------- the order players see ---------- */

  /** A higher score is shown before a lower one. */
  lemma HigherScoreFirst(board: Board, a: string, b: string)
    requires a in board && b in board && board[a] > board[b]
    ensures Rank(board, a) < Rank(board, b)
  {
    RankFollowsOrder(board, a, b);
  }

  /** Among equal scores the member that sorts last, byte by byte, is shown first. */
  lemma LaterMemberFirst(board: Board, common: string, a: char, b: char, x: string, y: string)
    requires common + [a] + x in board && common + [b] + y in board && a > b
    requires board[common + [a] + x] == board[common + [b] + y]
    ensures Rank(board, common + [a] + x) < Rank(board, common + [b] + y)
  {
    DifferAt(common, b, a, y, x);
    RankFollowsOrder(board, common + [a] + x, common + [b] + y);
  }

  /** And a member that continues another is shown before it. */
  lemma LongerMemberFirst(board: Board, m: string, more: string)
    requires m in board && m + more in board && more != [] && board[m] == board[m + more]
    ensures Rank(board, m + more) < Rank(board, m)
  {
    PrefixBefore(m, more);
    RankFollowsOrder(board, m + more, m);
  }

  lemma {:induction false} DifferAt(common: string, a: char, b: char, x: string, y: string)
    requires a < b
    ensures Before(common + [a] + x, common + [b] + y)
  {
    if common != [] {
      DifferAt(common[1..], a, b, x, y);
      assert (common + [a] + x)[1..] == common[1..] + [a] + x;
      assert (common + [b] + y)[1..] == common[1..] + [b] + y;
    }
  }

  lemma {:induction false} PrefixBefore(m: string, more: string)
    requires more != []
    ensures Before(m, m + more)
  {
    if m != [] {
      PrefixBefore(m[1..], more);
      assert (m + more)[1..] == m[1..] + more;
    }
  }

  /* ---------- the boards of one server ---------- */

  const DEFAULT_CAP := 10000

  function RankCap(configured: int): (cap: nat)
    ensures cap > 0 && (configured > 0 ==> cap == configured) && (configured <= 0 ==> cap == 10000)
  {
    if configured <= 0 then DEFAULT_CAP else configured
  }

  /** All boards by key; the trim loop visits the keys this process has written. */
  class RankServer {
    const cap: nat
    var boards: map<string, Board>
    var keys: set<string>

    constructor (configured: int)
      ensures cap == RankCap(configured) && boards == map[] && keys == {}
    {
      cap := RankCap(configured);
      boards, keys := map[], {};
    }

    static function Read(boards: map<string, Board>, key: string): Board {
      if key in boards then boards[key] else map[]
    }

    /** One event raises its member on the zone board, then on the global board, and on no other;
        the boards are trimmed from then on. A write that fails stops it. */
    method WriteScore(zoneKey: string, globalKey: string, member: string, score: int, zoneUp: bool, globalUp: bool)
      returns (ok: bool)
      modifies this
      ensures ok == (zoneUp && globalUp)
      ensures keys == if ok then old(keys) + {zoneKey, globalKey} else old(keys)
      ensures forall key :: Read(boards, key)
                == if (key == zoneKey && zoneUp) || (key == globalKey && ok)
                   then Write(Read(old(boards), key), member, score)
                   else Read(old(boards), key)
    {
      if !zoneUp { return false; }
      boards := boards[zoneKey := Write(Read(boards, zoneKey), member, score)];
      if !globalUp { return false; }
      boards := boards[globalKey := Write(Read(boards, globalKey), member, score)];
      keys := keys + {zoneKey, globalKey};
      return true;
    }

    /** One round of the trim loop trims every known key once; a key whose trim fails is left as it is. */
    method TrimAll(failing: set<string>)
      modifies this`boards
      ensures forall key :: Read(boards, key)
                == if key in keys && key !in failing then Trim(Read(old(boards), key), cap) else Read(old(boards), key)
      ensures forall key :: key in keys && key !in failing ==> |Read(boards, key)| <= cap
    {
      var todo := keys;
      while todo != {}
        invariant todo <= keys
        invariant forall key :: Read(boards, key)
                    == if key in keys && key !in todo && key !in failing then Trim(Read(old(boards), key), cap)
                       else Read(old(boards), key)
        decreases todo
      {
        var key :| key in todo;
        if key !in failing {
          boards := boards[key := Trim(Read(boards, key), cap)];
        }
        todo := todo - {key};
      }
      forall key | key in keys && key !in failing ensures |Read(boards, key)| <= cap {
        TrimKeepsTheBest(Read(old(boards), key), cap);
      }
    }
  }
}
