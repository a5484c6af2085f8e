/**
  The board engine of the viewer (web/src/state/utils.ts): a record from
  player names to player boards (an active slot, an ordered bench, prizes
  and hand size), changed in place by a handful of mutators; the setup lines
  folded into snapshot 0, then each turn's lines folded into a working board
  that is copied after every turn.

  `Board` is the mutable record, with its keys in insertion order (the order
  `Object.keys` and `Object.entries` report). Each mutator is specified by a
  function on the value `Table` of the record, and the properties are proved
  about those functions.
 */
module BoardState {
  import opened Wrappers
  import opened Text
  import opened Lists
  import opened LogTypes
  import opened BoardLines

  datatype CardSlot = CardSlot(name: string)

  /** One player's side of the table. */
  datatype PlayerBoard = PlayerBoard(active: Option<CardSlot>, bench: seq<CardSlot>, prizes: int, handSize: Option<int>)

  /** `initialPlayerBoard(name)` (the name is not used). */
  const FreshBoard: PlayerBoard := PlayerBoard(None, [], 6, None)

  // ---------------------------------------------------------------------
  // The bench
  // ---------------------------------------------------------------------

  /** `bench.findIndex(card => card.name === name)` from position `i`. */
  function FindCardFrom(bench: seq<CardSlot>, name: string, i: nat): (r: Option<nat>)
    ensures r.Some? ==> i <= r.value < |bench| && bench[r.value].name == name
    ensures r.Some? ==> forall j :: i <= j < r.value ==> bench[j].name != name
    ensures r.None? ==> forall j :: i <= j < |bench| ==> bench[j].name != name
    decreases |bench| - i
  {
    if i >= |bench| then None
    else if bench[i].name == name then Some(i)
    else FindCardFrom(bench, name, i + 1)
  }

  function FindCard(bench: seq<CardSlot>, name: string): (r: Option<nat>)
    ensures r.Some? ==> r.value < |bench| && bench[r.value].name == name
    ensures r.Some? ==> forall j :: 0 <= j < r.value ==> bench[j].name != name
    ensures r.None? ==> forall j :: 0 <= j < |bench| ==> bench[j].name != name
  {
    FindCardFrom(bench, name, 0)
  }

  /** `splice(i, 1)`. */
  function RemoveAt(s: seq<CardSlot>, i: nat): (r: seq<CardSlot>)
    requires i < |s|
    ensures |r| == |s| - 1
  {
    s[..i] + s[i + 1..]
  }

  /** The bench without its first card of that name, if it has one. */
  function RemoveFirst(bench: seq<CardSlot>, name: string): seq<CardSlot>
  {
    match FindCard(bench, name)
    case Some(i) => RemoveAt(bench, i)
    case None => bench
  }

  /** `RemoveFirst` takes out exactly the card at the first index carrying
      the name, and nothing when no card carries it. */
  lemma RemoveFirstFacts(bench: seq<CardSlot>, name: string)
    ensures (forall j :: 0 <= j < |bench| ==> bench[j].name != name) ==> RemoveFirst(bench, name) == bench
    ensures forall i :: 0 <= i < |bench| && bench[i].name == name && (forall j :: 0 <= j < i ==> bench[j].name != name) ==>
      RemoveFirst(bench, name) == bench[..i] + bench[i + 1..]
  {
    forall i | 0 <= i < |bench| && bench[i].name == name && (forall j :: 0 <= j < i ==> bench[j].name != name)
      ensures RemoveFirst(bench, name) == bench[..i] + bench[i + 1..]
    {
      var f := FindCard(bench, name);
      assert f.Some? && f.value == i;
    }
  }

  /** How many bench cards carry the name. */
  function NameCount(bench: seq<CardSlot>, name: string): nat
  {
    if bench == [] then 0
    else NameCount(bench[..|bench| - 1], name) + (if bench[|bench| - 1].name == name then 1 else 0)
  }

  lemma {:induction false} NameCountAppend(a: seq<CardSlot>, b: seq<CardSlot>, name: string)
    ensures NameCount(a + b, name) == NameCount(a, name) + NameCount(b, name)
  {
    if b != [] {
      assert (a + b)[..|a + b| - 1] == a + b[..|b| - 1];
      assert (a + b)[|a + b| - 1] == b[|b| - 1];
      NameCountAppend(a, b[..|b| - 1], name);
    } else {
      assert a + b == a;
    }
  }

  lemma {:induction false} NameCountZero(bench: seq<CardSlot>, name: string)
    ensures NameCount(bench, name) == 0 <==> forall j :: 0 <= j < |bench| ==> bench[j].name != name
  {
    if bench != [] {
      NameCountZero(bench[..|bench| - 1], name);
      assert forall j :: 0 <= j < |bench| - 1 ==> bench[..|bench| - 1][j] == bench[j];
    }
  }

  /** Removing the first card of a name lowers that name's count by one when
      there was one and leaves every other name's count alone. */
  lemma RemoveFirstCount(bench: seq<CardSlot>, name: string, n: string)
    ensures NameCount(RemoveFirst(bench, name), n) ==
      if n == name && NameCount(bench, name) > 0 then NameCount(bench, n) - 1 else NameCount(bench, n)
  {
    NameCountZero(bench, name);
    match FindCard(bench, name)
    case Some(i) =>
      assert bench == bench[..i] + [bench[i]] + bench[i + 1..];
      NameCountAppend(bench[..i] + [bench[i]], bench[i + 1..], n);
      NameCountAppend(bench[..i], [bench[i]], n);
      NameCountAppend(bench[..i], bench[i + 1..], n);
      assert NameCount([bench[i]], n) == if bench[i].name == n then 1 else 0 by {
        assert [bench[i]][..0] == [];
      }
    case None =>
  }

  // ---------------------------------------------------------------------
  // One player's board
  // ---------------------------------------------------------------------

  /** The cards on the board: the active one and the bench. */
  function CardCount(pb: PlayerBoard): nat
  {
    (if pb.active.Some? then 1 else 0) + |pb.bench|
  }

  /** `removeBenchCard` on one board: the board without the first bench card
      of that name, and that card. */
  function TakeBenchCard(pb: PlayerBoard, name: string): (r: (PlayerBoard, Option<CardSlot>))
    ensures r.0 == pb.(bench := RemoveFirst(pb.bench, name))
    ensures r.1.Some? <==> exists j :: 0 <= j < |pb.bench| && pb.bench[j].name == name
    ensures r.1.Some? ==> r.1.value == CardSlot(name)
  {
    match FindCard(pb.bench, name)
    case Some(i) => (pb.(bench := RemoveAt(pb.bench, i)), Some(pb.bench[i]))
    case None => (pb, None)
  }

  /** `promoteToActive` on one board. */
  function Promote(pb: PlayerBoard, name: string): PlayerBoard
  {
    var previous := pb.active;
    var taken := TakeBenchCard(pb, name);
    var pb2 := taken.0.(active := Some(taken.1.GetOr(CardSlot(name))));
    if previous.Some? && previous.value.name != name then
      pb2.(bench := RemoveFirst(pb2.bench, previous.value.name) + [previous.value])
    else pb2
  }

  /** `removeCardFromBoard` on one board: the active slot first, then the
      first bench card of that name. */
  function RemoveCard(pb: PlayerBoard, name: string): (PlayerBoard, bool)
  {
    if pb.active.Some? && pb.active.value.name == name then (pb.(active := None), true)
    else
      match FindCard(pb.bench, name)
      case Some(i) => (pb.(bench := RemoveAt(pb.bench, i)), true)
      case None => (pb, false)
  }

  /** `addBenchCard` on one board. */
  function AddBench(pb: PlayerBoard, name: string): PlayerBoard
  {
    pb.(bench := pb.bench + [CardSlot(name)])
  }

  /** After a promotion the card is active; prizes and hand size are
      unchanged. */
  lemma PromoteActive(pb: PlayerBoard, name: string)
    ensures var r := Promote(pb, name);
      r.active == Some(CardSlot(name)) && r.prizes == pb.prizes && r.handSize == pb.handSize
  {
    var taken := TakeBenchCard(pb, name);
    assert taken.1.Some? ==> taken.1.value.name == name;
  }

  /** The first bench card of the promoted name is gone: its count drops by
      one when there was one. The bench is the old bench without its first
      card of that name, and, when a card of another name was active,
      without the first card of that other name and with the demoted card
      appended. */
  lemma PromoteCount(pb: PlayerBoard, name: string)
    ensures NameCount(Promote(pb, name).bench, name) ==
      if NameCount(pb.bench, name) > 0 then NameCount(pb.bench, name) - 1 else 0
    ensures TakeBenchCard(pb, name).0.bench == RemoveFirst(pb.bench, name)
    ensures pb.active.Some? && pb.active.value.name != name ==>
      Promote(pb, name).bench == RemoveFirst(RemoveFirst(pb.bench, name), pb.active.value.name) + [pb.active.value]
    ensures !(pb.active.Some? && pb.active.value.name != name) ==>
      Promote(pb, name).bench == RemoveFirst(pb.bench, name)
  {
    var taken := TakeBenchCard(pb, name);
    assert taken.0.bench == RemoveFirst(pb.bench, name);
    RemoveFirstCount(pb.bench, name, name);
    NameCountZero(pb.bench, name);
    if pb.active.Some? && pb.active.value.name != name {
      var prev := pb.active.value;
      var b1 := taken.0.bench;
      RemoveFirstCount(b1, prev.name, name);
      NameCountAppend(RemoveFirst(b1, prev.name), [prev], name);
      assert [prev][..0] == [];
    }
  }

  /** A previous active card of another name becomes the last bench card;
      the bench then holds that name once, or as often as it already did
      before its first copy was taken out. */
  lemma PromotePrevious(pb: PlayerBoard, name: string)
    requires pb.active.Some? && pb.active.value.name != name
    ensures var r := Promote(pb, name);
      var prev := pb.active.value;
      |r.bench| > 0 && r.bench[|r.bench| - 1] == prev &&
      NameCount(r.bench, prev.name) == (if NameCount(pb.bench, prev.name) > 0 then NameCount(pb.bench, prev.name) else 1)
  {
    var prev := pb.active.value;
    var taken := TakeBenchCard(pb, name);
    var b1 := taken.0.bench;
    assert b1 == RemoveFirst(pb.bench, name);
    RemoveFirstCount(pb.bench, name, prev.name);
    RemoveFirstCount(b1, prev.name, prev.name);
    NameCountAppend(RemoveFirst(b1, prev.name), [prev], prev.name);
    assert [prev][..0] == [];
  }

  /** A promotion leaves the counts of all other names alone. */
  lemma PromoteOthers(pb: PlayerBoard, name: string, n: string)
    requires n != name && (pb.active.None? || n != pb.active.value.name)
    ensures NameCount(Promote(pb, name).bench, n) == NameCount(pb.bench, n)
  {
    var taken := TakeBenchCard(pb, name);
    var b1 := taken.0.bench;
    assert b1 == RemoveFirst(pb.bench, name);
    RemoveFirstCount(pb.bench, name, n);
    if pb.active.Some? && pb.active.value.name != name {
      var prev := pb.active.value;
      RemoveFirstCount(b1, prev.name, n);
      NameCountAppend(RemoveFirst(b1, prev.name), [prev], n);
      assert [prev][..0] == [];
    }
  }

  /** `removeCardFromBoard` reports a removal exactly when the card was
      active or on the bench; it removes one card then and none otherwise,
      and an active card of that name is taken before any bench card. */
  lemma RemoveCardFacts(pb: PlayerBoard, name: string)
    ensures var (r, removed) := RemoveCard(pb, name);
      (removed <==> (pb.active.Some? && pb.active.value.name == name) || NameCount(pb.bench, name) > 0) &&
      CardCount(r) == (if removed then CardCount(pb) - 1 else CardCount(pb)) &&
      (pb.active.Some? && pb.active.value.name == name ==> r.active.None? && r.bench == pb.bench) &&
      (!(pb.active.Some? && pb.active.value.name == name) ==> r.active == pb.active && r.bench == RemoveFirst(pb.bench, name)) &&
      r.prizes == pb.prizes && r.handSize == pb.handSize
  {
    NameCountZero(pb.bench, name);
  }

  /** A bench placement moves the card to the end of the bench; an active
      card of that name leaves the active slot. */
  lemma BenchMoveFacts(pb: PlayerBoard, name: string)
    ensures var r := AddBench(RemoveCard(pb, name).0, name);
      |r.bench| > 0 && r.bench[|r.bench| - 1] == CardSlot(name) &&
      (pb.active.Some? && pb.active.value.name == name ==> r.active.None?) &&
      (!(pb.active.Some? && pb.active.value.name == name) ==> r.active == pb.active) &&
      r.prizes == pb.prizes && r.handSize == pb.handSize
  {
  }

  // ---------------------------------------------------------------------
  // The record of all boards
  // ---------------------------------------------------------------------

  /** The value of a `Record<string, PlayerBoard>`: its keys in insertion
      order and its entries. */
  datatype Table = Table(keys: seq<string>, boards: map<string, PlayerBoard>)

  /** Every key is listed once, and the listed keys are the entries' keys. */
  ghost predicate WellKeyed(t: Table)
  {
    Distinct(t.keys) && forall p :: p in t.boards <==> p in t.keys
  }

  /** What the engine keeps true of the record: well keyed, and every board
      still has its six prizes (no operation changes `prizes`). */
  ghost predicate Sound(t: Table)
  {
    WellKeyed(t) && forall p :: p in t.boards ==> t.boards[p].prizes == 6
  }

  /** `ensurePlayerBoard`: a fresh board for a missing player, added last. */
  function Ensure(t: Table, p: string): (r: Table)
    ensures p in r.boards
  {
    if p in t.boards then t else Table(t.keys + [p], t.boards[p := FreshBoard])
  }

  /** The board `ensurePlayerBoard` returns. */
  function BoardOf(t: Table, p: string): PlayerBoard
  {
    Ensure(t, p).boards[p]
  }

  /** `board[p] = pb`: a new key goes last, an existing one keeps its place. */
  function Put(t: Table, p: string, pb: PlayerBoard): (r: Table)
    ensures p in r.boards
  {
    var e := Ensure(t, p);
    Table(e.keys, e.boards[p := pb])
  }

  /** `ensurePlayerBoard` keeps every existing entry and inserts only a
      fresh board, only for a missing key. */
  lemma EnsureFacts(t: Table, p: string)
    ensures var r := Ensure(t, p);
      (forall q :: q in t.boards ==> q in r.boards && r.boards[q] == t.boards[q]) &&
      (forall q :: q in r.boards ==> q in t.boards || q == p) &&
      (p in t.boards ==> r == t) &&
      (p !in t.boards ==> r.boards[p] == FreshBoard && r.keys == t.keys + [p]) &&
      (Sound(t) ==> Sound(r))
  {
    var r := Ensure(t, p);
    if p !in t.boards && Sound(t) {
      assert p !in t.keys;
      assert forall q :: q in r.boards <==> q in r.keys;
      assert Distinct(r.keys);
    }
  }

  lemma PutFacts(t: Table, p: string, pb: PlayerBoard)
    ensures var r := Put(t, p, pb);
      r.boards[p] == pb && r.keys == Ensure(t, p).keys &&
      (forall q :: q != p ==> (q in r.boards <==> q in t.boards)) &&
      (forall q :: q != p && q in t.boards ==> r.boards[q] == t.boards[q]) &&
      (Sound(t) && pb.prizes == 6 ==> Sound(r))
  {
    EnsureFacts(t, p);
  }

  lemma PutAfterEnsure(t: Table, p: string, pb: PlayerBoard)
    ensures Put(Ensure(t, p), p, pb) == Put(t, p, pb)
  {
  }

  lemma PutOwn(t: Table, p: string)
    ensures Put(t, p, BoardOf(t, p)) == Ensure(t, p)
  {
    var e := Ensure(t, p);
    assert e.boards[p := e.boards[p]] == e.boards;
  }

  lemma PutPut(t: Table, p: string, a: PlayerBoard, b: PlayerBoard)
    ensures Put(Put(t, p, a), p, b) == Put(t, p, b)
  {
    assert Ensure(t, p).boards[p := a][p := b] == Ensure(t, p).boards[p := b];
  }

  function PromoteIn(t: Table, p: string, name: string): Table
  {
    Put(t, p, Promote(BoardOf(t, p), name))
  }

  function RemoveIn(t: Table, p: string, name: string): (Table, bool)
  {
    var r := RemoveCard(BoardOf(t, p), name);
    (Put(t, p, r.0), r.1)
  }

  function AddBenchIn(t: Table, p: string, name: string): Table
  {
    Put(t, p, AddBench(BoardOf(t, p), name))
  }

  /** Once a card is removed, the rest of the list is not visited. */
  lemma {:induction false} RemoveFromListStops(t: Table, ps: seq<string>, n: nat, name: string)
    requires n <= |ps| && RemoveFromList(t, ps[..n], name).1
    ensures RemoveFromList(t, ps, name) == RemoveFromList(t, ps[..n], name)
    decreases |ps| - n
  {
    if n < |ps| {
      assert ps[..|ps| - 1][..n] == ps[..n];
      RemoveFromListStops(t, ps[..|ps| - 1], n, name);
    } else {
      assert ps[..n] == ps;
    }
  }

  /** The first loop of `removeCardFromAnyPlayer` over `ps`: the record
      after it, and whether a card was removed (which ends the search). */
  function RemoveFromList(t: Table, ps: seq<string>, name: string): (Table, bool)
  {
    if ps == [] then (t, false)
    else
      var before := RemoveFromList(t, ps[..|ps| - 1], name);
      if before.1 then before else RemoveIn(before.0, ps[|ps| - 1], name)
  }

  /** `removeCardFromAnyPlayer`: the listed players first, then every key of
      the record as it stands after that first pass. */
  function RemoveFromAny(t: Table, players: seq<string>, name: string): Table
  {
    var first := RemoveFromList(t, players, name);
    if first.1 then first.0 else RemoveFromList(first.0, first.0.keys, name).0
  }

  /** What a line does to the board, as `applyActionToBoard` decides it. */
  datatype Effect = NoEffect | ToActive(player: string, card: string) | ToBench(player: string, card: string)

  /** The bench pattern that matched: the assign pattern, else the
      "benched" one. */
  function BenchMatch(line: string): (r: Option<(string, string)>)
    ensures BenchAssign(line).Some? ==> r == BenchAssign(line)
    ensures BenchAssign(line).None? ==> r == BenchBenched(line)
  {
    if BenchAssign(line).Some? then BenchAssign(line) else BenchBenched(line)
  }

  /** The decision of `applyActionToBoard` for a (trimmed) line. */
  function EffectOf(line: string, fallback: Option<string>, players: seq<string>): Effect
  {
    if line == [] then NoEffect
    else
      match ParseActiveChange(line, fallback, players)
      case Some(ch) => ToActive(ch.player, ch.card)
      case None =>
        match BenchMatch(line)
        case None => NoEffect
        case Some((actor, card)) =>
          match ResolvePlayerName(Some(actor), fallback, players)
          case None => NoEffect
          case Some(p) => ToBench(p, Trim(card))
  }

  function ApplyEffect(t: Table, e: Effect): Table
  {
    match e
    case NoEffect => t
    case ToActive(p, card) => PromoteIn(t, p, card)
    case ToBench(p, card) => AddBenchIn(RemoveIn(t, p, card).0, p, card)
  }

  /** `applyActionToBoard`. */
  function Apply(t: Table, raw: string, fallback: Option<string>, players: seq<string>): Table
  {
    ApplyEffect(t, EffectOf(Trim(raw), fallback, players))
  }

  /** An active change takes precedence over a bench placement. */
  lemma EffectActiveFirst(line: string, fallback: Option<string>, players: seq<string>)
    requires line != [] && ParseActiveChange(line, fallback, players).Some?
    ensures var ch := ParseActiveChange(line, fallback, players).value;
      EffectOf(line, fallback, players) == ToActive(ch.player, ch.card)
  {
  }

  /** A line that is neither an active change nor a bench placement, or a
      blank one, does nothing. */
  lemma EffectNeither(line: string, fallback: Option<string>, players: seq<string>)
    requires line == [] || (ParseActiveChange(line, fallback, players).None? &&
      BenchAssign(line).None? && BenchBenched(line).None?)
    ensures EffectOf(line, fallback, players) == NoEffect
  {
  }

  /** A bench placement happens only when no active change applies, and for
      the player its actor resolves to. */
  lemma EffectBench(line: string, fallback: Option<string>, players: seq<string>)
    requires EffectOf(line, fallback, players).ToBench?
    ensures ParseActiveChange(line, fallback, players).None? && BenchMatch(line).Some?
    ensures EffectOf(line, fallback, players).player == ResolvePlayerName(Some(BenchMatch(line).value.0), fallback, players).value
    ensures EffectOf(line, fallback, players).card == Trim(BenchMatch(line).value.1)
  {
  }

  /** For a line that is not an active change, the bench half decides. */
  lemma EffectNotActive(line: string, fallback: Option<string>, players: seq<string>)
    requires line != [] && ParseActiveChange(line, fallback, players).None?
    ensures BenchMatch(line).None? ==> EffectOf(line, fallback, players) == NoEffect
    ensures BenchMatch(line).Some? ==>
      var actor := ResolvePlayerName(Some(BenchMatch(line).value.0), fallback, players);
      EffectOf(line, fallback, players) == if actor.None? then NoEffect else ToBench(actor.value, Trim(BenchMatch(line).value.1))
  {
  }

  /** A bench placement for `p` moves the card to the end of `p`'s bench (out
      of the active slot if it was there) and leaves every other player's
      board alone. */
  lemma ApplyBench(t: Table, p: string, card: string)
    ensures var r := ApplyEffect(t, ToBench(p, card));
      var pb := BoardOf(t, p);
      r.boards[p] == AddBench(RemoveCard(pb, card).0, card) &&
      r.boards[p].bench[|r.boards[p].bench| - 1] == CardSlot(card) &&
      (pb.active.Some? && pb.active.value.name == card ==> r.boards[p].active.None?) &&
      (forall q :: q != p && q in t.boards ==> q in r.boards && r.boards[q] == t.boards[q])
  {
    var t1 := RemoveIn(t, p, card).0;
    PutFacts(t, p, RemoveCard(BoardOf(t, p), card).0);
    PutFacts(t1, p, AddBench(BoardOf(t1, p), card));
    BenchMoveFacts(BoardOf(t, p), card);
  }

  /** A promotion leaves every other player's board alone. */
  lemma PromoteInOthers(t: Table, p: string, name: string)
    ensures var r := PromoteIn(t, p, name);
      r.boards[p] == Promote(BoardOf(t, p), name) &&
      forall q :: q != p && q in t.boards ==> q in r.boards && r.boards[q] == t.boards[q]
  {
    PutFacts(t, p, Promote(BoardOf(t, p), name));
  }

  // ---------------------------------------------------------------------
  // Soundness of every operation
  // ---------------------------------------------------------------------

  lemma PromoteInSound(t: Table, p: string, name: string)
    requires Sound(t)
    ensures Sound(PromoteIn(t, p, name))
  {
    EnsureFacts(t, p);
    PutFacts(t, p, Promote(BoardOf(t, p), name));
  }

  lemma RemoveInSound(t: Table, p: string, name: string)
    requires Sound(t)
    ensures Sound(RemoveIn(t, p, name).0)
  {
    EnsureFacts(t, p);
    PutFacts(t, p, RemoveCard(BoardOf(t, p), name).0);
  }

  lemma AddBenchInSound(t: Table, p: string, name: string)
    requires Sound(t)
    ensures Sound(AddBenchIn(t, p, name))
  {
    EnsureFacts(t, p);
    PutFacts(t, p, AddBench(BoardOf(t, p), name));
  }

  lemma {:induction false} RemoveFromListSound(t: Table, ps: seq<string>, name: string)
    requires Sound(t)
    ensures Sound(RemoveFromList(t, ps, name).0)
  {
    if ps != [] {
      RemoveFromListSound(t, ps[..|ps| - 1], name);
      RemoveInSound(RemoveFromList(t, ps[..|ps| - 1], name).0, ps[|ps| - 1], name);
    }
  }

  lemma RemoveFromAnySound(t: Table, players: seq<string>, name: string)
    requires Sound(t)
    ensures Sound(RemoveFromAny(t, players, name))
  {
    RemoveFromListSound(t, players, name);
    RemoveFromListSound(RemoveFromList(t, players, name).0, RemoveFromList(t, players, name).0.keys, name);
  }

  /** Every line keeps the record sound: all keys listed once, six prizes
      on every board. */
  lemma ApplySound(t: Table, e: Effect)
    requires Sound(t)
    ensures Sound(ApplyEffect(t, e))
  {
    match e
    case NoEffect =>
    case ToActive(p, card) => PromoteInSound(t, p, card);
    case ToBench(p, card) =>
      RemoveInSound(t, p, card);
      AddBenchInSound(RemoveIn(t, p, card).0, p, card);
  }

  // ---------------------------------------------------------------------
  // Looking a board up after a change
  // ---------------------------------------------------------------------

  /** `ensurePlayerBoard` changes no player's board as the engine sees it. */
  lemma BoardOfEnsure(t: Table, q: string, p: string)
    ensures BoardOf(Ensure(t, q), p) == BoardOf(t, p)
  {
  }

  /** After `board[q] = pb`, `q` has `pb` and everyone else what they had. */
  lemma BoardOfPut(t: Table, q: string, pb: PlayerBoard, p: string)
    ensures BoardOf(Put(t, q, pb), p) == if p == q then pb else BoardOf(t, p)
  {
  }

  // ---------------------------------------------------------------------
  // Snapshot 0
  // ---------------------------------------------------------------------

  /** The record after `board[player] = initialPlayerBoard(player)` for each
      listed player in turn. */
  function FreshTable(players: seq<string>): Table
  {
    if players == [] then Table([], map[])
    else Put(FreshTable(players[..|players| - 1]), players[|players| - 1], FreshBoard)
  }

  lemma {:induction false} FreshTableBoards(players: seq<string>)
    ensures var t := FreshTable(players);
      (forall p :: p in t.boards <==> p in players) &&
      (forall p :: p in t.boards ==> t.boards[p] == FreshBoard)
  {
    if players != [] {
      var init := players[..|players| - 1];
      assert players == init + [players[|players| - 1]];
      FreshTableBoards(init);
      PutFacts(FreshTable(init), players[|players| - 1], FreshBoard);
    }
  }

  lemma {:induction false} FreshTableKeys(players: seq<string>)
    ensures FreshTable(players).keys == Dedup(players)
  {
    if players != [] {
      var init := players[..|players| - 1];
      var last := players[|players| - 1];
      assert players == init + [last];
      FreshTableKeys(init);
      FreshTableBoards(init);
      DedupSnoc(init, last);
    }
  }

  /** Before the setup is read, the record holds a fresh board for each
      listed player, keyed in first-seen order, and nothing else. */
  lemma FreshTableFacts(players: seq<string>)
    ensures var t := FreshTable(players);
      t.keys == Dedup(players) && Sound(t) &&
      (forall p :: p in t.boards <==> p in players) &&
      (forall p :: p in t.boards ==> t.boards[p] == FreshBoard)
  {
    FreshTableBoards(players);
    FreshTableKeys(players);
  }

  /** What a setup line does to a hand size. */
  datatype HandChange = NoHand | SetHand(player: string, count: nat) | AddHand(player: string, count: nat)

  /** The hand-size decision for a (trimmed) setup line: the opening-hand
      pattern first, and a line it matches is done with whether or not its
      player resolves; then the mulligan-bonus pattern. */
  function HandOf(line: string, players: seq<string>): HandChange
  {
    match OpeningHand(line)
    case Some((who, n)) =>
      (match ResolvePlayerName(Some(who), None, players)
       case Some(p) => SetHand(p, n)
       case None => NoHand)
    case None =>
      match BonusDraw(line)
      case None => NoHand
      case Some((who, n)) =>
        match ResolvePlayerName(Some(who), None, players)
        case Some(p) => AddHand(p, n)
        case None => NoHand
  }

  /** `handSize = Number(count)`, or `handSize = (handSize ?? 0) + Number(count)`. */
  function ApplyHand(t: Table, h: HandChange): Table
  {
    match h
    case NoHand => t
    case SetHand(p, n) => Put(t, p, BoardOf(t, p).(handSize := Some(n)))
    case AddHand(p, n) => Put(t, p, BoardOf(t, p).(handSize := Some(BoardOf(t, p).handSize.GetOr(0) + n)))
  }

  /** One pass of the setup loop of `buildInitialSnapshot`: a blank line is
      skipped; any other goes through `applyActionToBoard` with no default
      player, then through the hand-size patterns. */
  function SetupLine(t: Table, line: string, players: seq<string>): Table
  {
    var trimmed := Trim(line);
    if trimmed == [] then t
    else ApplyHand(Apply(t, trimmed, None, players), HandOf(trimmed, players))
  }

  function SetupFold(t: Table, lines: seq<string>, players: seq<string>): Table
  {
    if lines == [] then t
    else SetupLine(SetupFold(t, lines[..|lines| - 1], players), lines[|lines| - 1], players)
  }

  /** The last loop of `buildInitialSnapshot` for one player: an empty
      active slot takes the first bench card. */
  function PromoteWaiting(t: Table, p: string): Table
  {
    var pb := BoardOf(t, p);
    if pb.active.None? && |pb.bench| > 0 then Put(t, p, pb.(active := Some(pb.bench[0]), bench := pb.bench[1..]))
    else Ensure(t, p)
  }

  function PromoteAll(t: Table, players: seq<string>): Table
  {
    if players == [] then t
    else PromoteWaiting(PromoteAll(t, players[..|players| - 1]), players[|players| - 1])
  }

  /** The board of snapshot 0. */
  function InitialTable(setup: seq<string>, players: seq<string>): Table
  {
    PromoteAll(SetupFold(FreshTable(players), setup, players), players)
  }

  /** The board half of a line leaves every hand size alone. */
  lemma ApplyKeepsHands(t: Table, e: Effect, p: string)
    ensures BoardOf(ApplyEffect(t, e), p).handSize == BoardOf(t, p).handSize
  {
    match e
    case NoEffect =>
    case ToActive(q, card) =>
      PromoteActive(BoardOf(t, q), card);
      BoardOfPut(t, q, Promote(BoardOf(t, q), card), p);
    case ToBench(q, card) =>
      var t1 := RemoveIn(t, q, card).0;
      RemoveCardFacts(BoardOf(t, q), card);
      BoardOfPut(t, q, RemoveCard(BoardOf(t, q), card).0, p);
      BoardOfPut(t1, q, AddBench(BoardOf(t1, q), card), p);
  }

  /** The hand size of `q` once `h` is done: set to the count, or raised by
      it from a missing hand size counted as 0, when `h` names `q`; as it
      was otherwise. */
  function HandAfter(before: Option<int>, h: HandChange, q: string): Option<int>
  {
    match h
    case NoHand => before
    case SetHand(p, n) => if q == p then Some(n) else before
    case AddHand(p, n) => if q == p then Some(before.GetOr(0) + n) else before
  }

  /** The hand-size half of a setup line changes only the named player's
      hand size. */
  lemma ApplyHandFacts(t: Table, h: HandChange, q: string)
    ensures BoardOf(ApplyHand(t, h), q).handSize == HandAfter(BoardOf(t, q).handSize, h, q)
  {
    match h
    case NoHand =>
    case SetHand(p, n) =>
      BoardOfPut(t, p, BoardOf(t, p).(handSize := Some(n)), q);
    case AddHand(p, n) =>
      BoardOfPut(t, p, BoardOf(t, p).(handSize := Some(BoardOf(t, p).handSize.GetOr(0) + n)), q);
  }

  /** An opening-hand line sets the hand size of the player it names to the
      number drawn; a mulligan-bonus line adds its number to that hand size,
      a missing one counting as 0; another line leaves every hand size
      alone, and so does each line for every other player. */
  lemma SetupLineHand(t: Table, line: string, players: seq<string>, q: string)
    requires Trim(line) != []
    ensures BoardOf(SetupLine(t, line, players), q).handSize ==
      HandAfter(BoardOf(t, q).handSize, HandOf(Trim(line), players), q)
  {
    var trimmed := Trim(line);
    var h := HandOf(trimmed, players);
    var e := EffectOf(Trim(trimmed), None, players);
    assert SetupLine(t, line, players) == ApplyHand(ApplyEffect(t, e), h);
    ApplyKeepsHands(t, e, q);
    ApplyHandFacts(ApplyEffect(t, e), h, q);
  }

  lemma PromoteWaitingStep(t: Table, q: string, p: string)
    ensures var pb := BoardOf(t, p);
      BoardOf(PromoteWaiting(t, q), p) ==
        if p == q && pb.active.None? && |pb.bench| > 0 then pb.(active := Some(pb.bench[0]), bench := pb.bench[1..]) else pb
  {
    var pb := BoardOf(t, q);
    if pb.active.None? && |pb.bench| > 0 {
      BoardOfPut(t, q, pb.(active := Some(pb.bench[0]), bench := pb.bench[1..]), p);
    } else {
      BoardOfEnsure(t, q, p);
    }
  }

  /** A player left out of the promotion pass keeps their board. */
  lemma {:induction false} PromoteAllOthers(t: Table, players: seq<string>, p: string)
    requires p !in players
    ensures BoardOf(PromoteAll(t, players), p) == BoardOf(t, p)
  {
    if players != [] {
      var init := players[..|players| - 1];
      assert players == init + [players[|players| - 1]];
      PromoteAllOthers(t, init, p);
      PromoteWaitingStep(PromoteAll(t, init), players[|players| - 1], p);
    }
  }

  /** The promotion pass: each listed player whose active slot was empty and
      whose bench was not now has the first bench card active and the rest
      of the bench, even when listed twice; every other listed board is as it
      was. Afterwards no listed player waits with an empty active slot while
      a card sits on the bench. */
  lemma {:induction false} PromoteAllEffect(t: Table, players: seq<string>, p: string)
    requires p in players
    ensures var pb := BoardOf(t, p);
      BoardOf(PromoteAll(t, players), p) ==
        if pb.active.None? && |pb.bench| > 0 then pb.(active := Some(pb.bench[0]), bench := pb.bench[1..]) else pb
    ensures var r := BoardOf(PromoteAll(t, players), p); r.active.Some? || r.bench == []
  {
    var init := players[..|players| - 1];
    var last := players[|players| - 1];
    assert players == init + [last];
    if p in init {
      PromoteAllEffect(t, init, p);
    } else {
      PromoteAllOthers(t, init, p);
    }
    PromoteWaitingStep(PromoteAll(t, init), last, p);
  }

  // ---------------------------------------------------------------------
  // The turns
  // ---------------------------------------------------------------------

  /** `extractActionText`: the line of a plain action, the `raw` string of a
      structured one. */
  function ActionText(a: ParsedAction): Option<string>
  {
    match a
    case Plain(text) => Some(text)
    case Structured(raw) => raw
  }

  /** One action of a turn in `buildSnapshots`: an action with no text, or
      an empty one, is skipped; any other is applied with the turn's player
      as the default player. */
  function TurnLine(t: Table, a: ParsedAction, player: string, players: seq<string>): Table
  {
    match ActionText(a)
    case None => t
    case Some(raw) => if raw == [] then t else Apply(t, raw, Some(player), players)
  }

  function TurnFold(t: Table, actions: seq<ParsedAction>, player: string, players: seq<string>): Table
  {
    if actions == [] then t
    else TurnLine(TurnFold(t, actions[..|actions| - 1], player, players), actions[|actions| - 1], player, players)
  }

  function TurnsFold(t: Table, turns: seq<ParsedTurn>, players: seq<string>): Table
  {
    if turns == [] then t
    else
      var turn := turns[|turns| - 1];
      TurnFold(TurnsFold(t, turns[..|turns| - 1], players), turn.actions, turn.player, players)
  }

  /** The boards of the snapshots: snapshot 0, then the board as it stands
      after each turn. */
  function SnapshotTables(log: ParsedLog, players: seq<string>): (r: seq<Table>)
    ensures |r| == |log.turns| + 1
  {
    seq(|log.turns| + 1, k requires 0 <= k <= |log.turns| =>
      TurnsFold(InitialTable(log.setup, players), log.turns[..k], players))
  }

  /** Snapshot 0 is the initial board, and each later snapshot is the one
      before it with the lines of its turn applied. */
  lemma SnapshotTablesStep(log: ParsedLog, players: seq<string>, k: nat)
    requires k < |log.turns|
    ensures SnapshotTables(log, players)[0] == InitialTable(log.setup, players)
    ensures SnapshotTables(log, players)[k + 1] ==
      TurnFold(SnapshotTables(log, players)[k], log.turns[k].actions, log.turns[k].player, players)
  {
    assert log.turns[..k + 1][..k] == log.turns[..k];
    assert log.turns[..0] == [];
  }

  // ---------------------------------------------------------------------
  // No operation breaks the record
  // ---------------------------------------------------------------------

  lemma ApplyHandSound(t: Table, h: HandChange)
    requires Sound(t)
    ensures Sound(ApplyHand(t, h))
  {
    match h
    case NoHand =>
    case SetHand(p, n) =>
      EnsureFacts(t, p);
      PutFacts(t, p, BoardOf(t, p).(handSize := Some(n)));
    case AddHand(p, n) =>
      EnsureFacts(t, p);
      PutFacts(t, p, BoardOf(t, p).(handSize := Some(BoardOf(t, p).handSize.GetOr(0) + n)));
  }

  lemma {:induction false} SetupFoldSound(t: Table, lines: seq<string>, players: seq<string>)
    requires Sound(t)
    ensures Sound(SetupFold(t, lines, players))
  {
    if lines != [] {
      var t1 := SetupFold(t, lines[..|lines| - 1], players);
      SetupFoldSound(t, lines[..|lines| - 1], players);
      var trimmed := Trim(lines[|lines| - 1]);
      if trimmed != [] {
        ApplySound(t1, EffectOf(Trim(trimmed), None, players));
        ApplyHandSound(Apply(t1, trimmed, None, players), HandOf(trimmed, players));
      }
    }
  }

  lemma {:induction false} PromoteAllSound(t: Table, players: seq<string>)
    requires Sound(t)
    ensures Sound(PromoteAll(t, players))
  {
    if players != [] {
      var t1 := PromoteAll(t, players[..|players| - 1]);
      var p := players[|players| - 1];
      PromoteAllSound(t, players[..|players| - 1]);
      EnsureFacts(t1, p);
      var pb := BoardOf(t1, p);
      if pb.active.None? && |pb.bench| > 0 {
        PutFacts(t1, p, pb.(active := Some(pb.bench[0]), bench := pb.bench[1..]));
      }
    }
  }

  lemma {:induction false} TurnFoldSound(t: Table, actions: seq<ParsedAction>, player: string, players: seq<string>)
    requires Sound(t)
    ensures Sound(TurnFold(t, actions, player, players))
  {
    if actions != [] {
      var t1 := TurnFold(t, actions[..|actions| - 1], player, players);
      TurnFoldSound(t, actions[..|actions| - 1], player, players);
      match ActionText(actions[|actions| - 1])
      case None =>
      case Some(raw) => ApplySound(t1, EffectOf(Trim(raw), Some(player), players));
    }
  }

  lemma {:induction false} TurnsFoldSound(t: Table, turns: seq<ParsedTurn>, players: seq<string>)
    requires Sound(t)
    ensures Sound(TurnsFold(t, turns, players))
  {
    if turns != [] {
      var turn := turns[|turns| - 1];
      TurnsFoldSound(t, turns[..|turns| - 1], players);
      TurnFoldSound(TurnsFold(t, turns[..|turns| - 1], players), turn.actions, turn.player, players);
    }
  }

  /** Every snapshot's record lists each key once and keeps six prizes on
      every board: no line of a log ever takes a prize. */
  lemma SnapshotsSound(log: ParsedLog, players: seq<string>, k: nat)
    requires k <= |log.turns|
    ensures Sound(SnapshotTables(log, players)[k])
  {
    FreshTableFacts(players);
    SetupFoldSound(FreshTable(players), log.setup, players);
    PromoteAllSound(SetupFold(FreshTable(players), log.setup, players), players);
    TurnsFoldSound(InitialTable(log.setup, players), log.turns[..k], players);
  }

  // ---------------------------------------------------------------------
  // The mutable record
  // ---------------------------------------------------------------------

  /** A `Record<string, PlayerBoard>` that the mutators change in place. */
  class Board {
    var keys: seq<string>
    var boards: map<string, PlayerBoard>

    function View(): Table
      reads this
    {
      Table(keys, boards)
    }

    constructor ()
      ensures View() == Table([], map[])
    {
      keys := [];
      boards := map[];
    }

    /** `board[player] = pb`. */
    method Assign(player: string, pb: PlayerBoard)
      modifies this
      ensures View() == Put(old(View()), player, pb)
    {
      if player !in boards {
        keys := keys + [player];
      }
      boards := boards[player := pb];
    }

    /** `ensurePlayerBoard(board, player)`. */
    method EnsurePlayerBoard(player: string) returns (pb: PlayerBoard)
      modifies this
      ensures View() == Ensure(old(View()), player) && pb == BoardOf(old(View()), player)
    {
      if player !in boards {
        keys := keys + [player];
        boards := boards[player := FreshBoard];
      }
      pb := boards[player];
    }

    /** `removeBenchCard(board, player, cardName)`. */
    method RemoveBenchCard(player: string, cardName: string) returns (removed: Option<CardSlot>)
      modifies this
      ensures var taken := TakeBenchCard(BoardOf(old(View()), player), cardName);
        View() == Put(old(View()), player, taken.0) && removed == taken.1
    {
      ghost var t := View();
      var pb := EnsurePlayerBoard(player);
      var idx := FindCard(pb.bench, cardName);
      if idx.Some? {
        removed := Some(pb.bench[idx.value]);
        Assign(player, pb.(bench := RemoveAt(pb.bench, idx.value)));
        PutAfterEnsure(t, player, pb.(bench := RemoveAt(pb.bench, idx.value)));
      } else {
        removed := None;
        PutOwn(t, player);
      }
    }

    /** `addBenchCard(board, player, cardName)`. */
    method AddBenchCard(player: string, cardName: string)
      modifies this
      ensures View() == AddBenchIn(old(View()), player, cardName)
    {
      ghost var t := View();
      var pb := EnsurePlayerBoard(player);
      Assign(player, pb.(bench := pb.bench + [CardSlot(cardName)]));
      PutAfterEnsure(t, player, AddBench(pb, cardName));
    }

    /** `promoteToActive(board, player, cardName)`. */
    method PromoteToActive(player: string, cardName: string)
      modifies this
      ensures View() == PromoteIn(old(View()), player, cardName)
    {
      ghost var t := View();
      var pb := EnsurePlayerBoard(player);
      var previous := pb.active;
      var benchCard := RemoveBenchCard(player, cardName);
      ghost var t1 := View();
      assert t1 == Put(Ensure(t, player), player, TakeBenchCard(pb, cardName).0);
      pb := boards[player];
      pb := pb.(active := Some(if benchCard.Some? then benchCard.value else CardSlot(cardName)));
      if previous.Some? && previous.value.name != cardName {
        var already := FindCard(pb.bench, previous.value.name);
        var bench := pb.bench;
        if already.Some? {
          bench := RemoveAt(bench, already.value);
        }
        pb := pb.(bench := bench + [previous.value]);
      }
      Assign(player, pb);
      PutAfterEnsure(t, player, TakeBenchCard(BoardOf(t, player), cardName).0);
      PutPut(t, player, TakeBenchCard(BoardOf(t, player), cardName).0, pb);
    }

    /** `removeCardFromBoard(board, player, cardName)`. */
    method RemoveCardFromBoard(player: string, cardName: string) returns (removed: bool)
      modifies this
      ensures (View(), removed) == RemoveIn(old(View()), player, cardName)
    {
      ghost var t := View();
      var pb := EnsurePlayerBoard(player);
      if pb.active.Some? && pb.active.value.name == cardName {
        Assign(player, pb.(active := None));
        PutAfterEnsure(t, player, pb.(active := None));
        return true;
      }
      var idx := FindCard(pb.bench, cardName);
      if idx.Some? {
        Assign(player, pb.(bench := RemoveAt(pb.bench, idx.value)));
        PutAfterEnsure(t, player, pb.(bench := RemoveAt(pb.bench, idx.value)));
        return true;
      }
      PutOwn(t, player);
      return false;
    }

    /** One pass of `removeCardFromAnyPlayer` over `ps`. */
    method RemoveFromEach(ps: seq<string>, cardName: string) returns (removed: bool)
      modifies this
      ensures (View(), removed) == RemoveFromList(old(View()), ps, cardName)
    {
      ghost var t := View();
      var i := 0;
      while i < |ps|
        invariant 0 <= i <= |ps|
        invariant (View(), false) == RemoveFromList(t, ps[..i], cardName)
      {
        assert ps[..i + 1][..i] == ps[..i];
        removed := RemoveCardFromBoard(ps[i], cardName);
        if removed {
          RemoveFromListStops(t, ps, i + 1, cardName);
          return;
        }
        i := i + 1;
      }
      assert ps[..i] == ps;
      removed := false;
    }

    /** `removeCardFromAnyPlayer(board, players, cardName)`. */
    method RemoveCardFromAnyPlayer(players: seq<string>, cardName: string)
      modifies this
      ensures View() == RemoveFromAny(old(View()), players, cardName)
    {
      var removed := RemoveFromEach(players, cardName);
      if removed {
        return;
      }
      var ks := keys;
      removed := RemoveFromEach(ks, cardName);
    }

    /** `applyActionToBoard(board, raw, defaultPlayer, players)`. */
    method ApplyAction(raw: string, defaultPlayer: Option<string>, players: seq<string>)
      modifies this
      ensures View() == Apply(old(View()), raw, defaultPlayer, players)
    {
      var line := Trim(raw);
      if line == [] {
        EffectNeither(line, defaultPlayer, players);
        return;
      }
      var activeChange := ParseActiveChange(line, defaultPlayer, players);
      if activeChange.Some? {
        EffectActiveFirst(line, defaultPlayer, players);
        PromoteToActive(activeChange.value.player, activeChange.value.card);
        return;
      }
      ApplyBenchLine(line, defaultPlayer, players);
    }

    /** The bench half of `applyActionToBoard`, for a line that is not an
        active change. */
    method ApplyBenchLine(line: string, defaultPlayer: Option<string>, players: seq<string>)
      requires line != [] && ParseActiveChange(line, defaultPlayer, players).None?
      modifies this
      ensures View() == ApplyEffect(old(View()), EffectOf(line, defaultPlayer, players))
    {
      EffectNotActive(line, defaultPlayer, players);
      var m := BenchAssign(line);
      if m.None? {
        m := BenchBenched(line);
      }
      assert m == BenchMatch(line);
      if m.Some? {
        var player := ResolvePlayerName(Some(m.value.0), defaultPlayer, players);
        if player.Some? {
          MoveToBench(player.value, Trim(m.value.1));
        }
      }
    }

    /** Lines 203-204 of `applyActionToBoard`: out of the active slot or the
        bench, then onto the end of the bench. */
    method MoveToBench(player: string, card: string)
      modifies this
      ensures View() == ApplyEffect(old(View()), ToBench(player, card))
    {
      var removed := RemoveCardFromBoard(player, card);
      AddBenchCard(player, card);
    }

    /** `cloneBoard(board)`: a new record with the same keys, in the same
        order, and copies of the same boards. */
    method Clone() returns (c: Board)
      requires WellKeyed(View())
      ensures fresh(c) && c.View() == View()
    {
      c := new Board();
      var i := 0;
      while i < |keys|
        invariant 0 <= i <= |keys|
        invariant c.keys == keys[..i]
        invariant forall p :: p in c.boards <==> p in keys[..i]
        invariant forall p :: p in c.boards ==> c.boards[p] == boards[p]
      {
        var player := keys[i];
        var data := boards[player];
        assert player !in keys[..i];
        c.Assign(player, PlayerBoard(data.active, data.bench, data.prizes, data.handSize));
        assert keys[..i + 1] == keys[..i] + [player];
        i := i + 1;
      }
      assert keys[..i] == keys;
      assert c.boards == boards;
    }

    /** The first loop of `buildInitialSnapshot`. */
    method AddFreshBoards(players: seq<string>)
      modifies this
      ensures View() == FreshTable(players)
    {
      keys := [];
      boards := map[];
      var i := 0;
      while i < |players|
        invariant 0 <= i <= |players|
        invariant View() == FreshTable(players[..i])
      {
        assert players[..i + 1][..i] == players[..i];
        Assign(players[i], FreshBoard);
        i := i + 1;
      }
      assert players[..i] == players;
    }

    /** The hand-size half of one setup line. */
    method UpdateHandSize(trimmed: string, players: seq<string>)
      modifies this
      ensures View() == ApplyHand(old(View()), HandOf(trimmed, players))
    {
      var opening := OpeningHand(trimmed);
      if opening.Some? {
        var resolved := ResolvePlayerName(Some(opening.value.0), None, players);
        if resolved.Some? {
          SetHandSize(resolved.value, opening.value.1);
        }
        return;
      }
      var bonus := BonusDraw(trimmed);
      if bonus.Some? {
        var resolved := ResolvePlayerName(Some(bonus.value.0), None, players);
        if resolved.Some? {
          AddHandSize(resolved.value, bonus.value.1);
        }
      }
    }

    /** `handSize = Number(count)` on the player's board. */
    method SetHandSize(player: string, count: nat)
      modifies this
      ensures View() == ApplyHand(old(View()), SetHand(player, count))
    {
      ghost var t := View();
      var pb := EnsurePlayerBoard(player);
      Assign(player, pb.(handSize := Some(count)));
      PutAfterEnsure(t, player, pb.(handSize := Some(count)));
    }

    /** `handSize = (handSize ?? 0) + Number(count)` on the player's board. */
    method AddHandSize(player: string, count: nat)
      modifies this
      ensures View() == ApplyHand(old(View()), AddHand(player, count))
    {
      ghost var t := View();
      var pb := EnsurePlayerBoard(player);
      var current := pb.handSize.GetOr(0);
      Assign(player, pb.(handSize := Some(current + count)));
      PutAfterEnsure(t, player, pb.(handSize := Some(current + count)));
    }

    /** One pass of the setup loop of `buildInitialSnapshot`. */
    method ReadSetupLine(line: string, players: seq<string>)
      modifies this
      ensures View() == SetupLine(old(View()), line, players)
    {
      var trimmed := Trim(line);
      if trimmed == [] {
        return;
      }
      ApplyAction(trimmed, None, players);
      UpdateHandSize(trimmed, players);
    }

    /** The setup loop of `buildInitialSnapshot`. */
    method ReadSetup(setup: seq<string>, players: seq<string>)
      modifies this
      ensures View() == SetupFold(old(View()), setup, players)
    {
      ghost var t := View();
      var i := 0;
      while i < |setup|
        invariant 0 <= i <= |setup|
        invariant View() == SetupFold(t, setup[..i], players)
      {
        assert setup[..i + 1][..i] == setup[..i];
        ReadSetupLine(setup[i], players);
        i := i + 1;
      }
      assert setup[..i] == setup;
    }

    /** The last loop of `buildInitialSnapshot` for one player. */
    method FillActive(player: string)
      modifies this
      ensures View() == PromoteWaiting(old(View()), player)
    {
      ghost var t := View();
      var pb := EnsurePlayerBoard(player);
      if pb.active.None? && |pb.bench| > 0 {
        Assign(player, pb.(active := Some(pb.bench[0]), bench := pb.bench[1..]));
        PutAfterEnsure(t, player, pb.(active := Some(pb.bench[0]), bench := pb.bench[1..]));
      }
    }

    /** The last loop of `buildInitialSnapshot`. */
    method FillActiveSlots(players: seq<string>)
      modifies this
      ensures View() == PromoteAll(old(View()), players)
    {
      ghost var t := View();
      var i := 0;
      while i < |players|
        invariant 0 <= i <= |players|
        invariant View() == PromoteAll(t, players[..i])
      {
        assert players[..i + 1][..i] == players[..i];
        FillActive(players[i]);
        i := i + 1;
      }
      assert players[..i] == players;
    }

    /** The inner loop of `buildSnapshots`: the lines of one turn. */
    method ApplyTurn(actions: seq<ParsedAction>, player: string, players: seq<string>)
      modifies this
      ensures View() == TurnFold(old(View()), actions, player, players)
    {
      ghost var t := View();
      var i := 0;
      while i < |actions|
        invariant 0 <= i <= |actions|
        invariant View() == TurnFold(t, actions[..i], player, players)
      {
        assert actions[..i + 1][..i] == actions[..i];
        var raw := ActionText(actions[i]);
        if raw.Some? && raw.value != [] {
          ApplyAction(raw.value, Some(player), players);
        }
        i := i + 1;
      }
      assert actions[..i] == actions;
    }
  }

  // ---------------------------------------------------------------------
  // Snapshots
  // ---------------------------------------------------------------------

  datatype Side = First | Second

  /** A snapshot holds its own record, which no later change touches. */
  datatype Snapshot = Snapshot(turnNumber: int, side: Side, board: Board)

  /** The side of a snapshot: the first listed player's turn is `first`. */
  function SnapshotSide(player: string, players: seq<string>): Side
  {
    if |players| > 0 && player == players[0] then First else Second
  }

  /** `buildInitialSnapshot(log, players)`. */
  method BuildInitialSnapshot(log: ParsedLog, players: seq<string>) returns (s: Snapshot)
    ensures fresh(s.board) && s.board.View() == InitialTable(log.setup, players)
    ensures s.turnNumber == 0 && s.side == First
  {
    var board := new Board();
    board.AddFreshBoards(players);
    board.ReadSetup(log.setup, players);
    board.FillActiveSlots(players);
    s := Snapshot(0, First, board);
  }

  /** `buildSnapshots(log, players)`: snapshot 0, then one per turn, each
      with a record of its own equal to the board as it stood after that
      turn. */
  method BuildSnapshots(log: ParsedLog, players: seq<string>) returns (snaps: seq<Snapshot>)
    ensures |snaps| == |log.turns| + 1
    ensures snaps[0].turnNumber == 0 && snaps[0].side == First
    ensures forall k :: 0 <= k < |log.turns| ==>
      snaps[k + 1].turnNumber == log.turns[k].number && snaps[k + 1].side == SnapshotSide(log.turns[k].player, players)
    ensures forall k :: 0 <= k < |snaps| ==> fresh(snaps[k].board)
    ensures forall k :: 0 <= k < |snaps| ==> snaps[k].board.View() == SnapshotTables(log, players)[k]
    ensures forall j, k :: 0 <= j < k < |snaps| ==> snaps[j].board != snaps[k].board
  {
    var initial := BuildInitialSnapshot(log, players);
    SnapshotsSound(log, players, 0);
    assert log.turns[..0] == [];
    var working := initial.board.Clone();
    snaps := SnapshotTurns(log, players, initial, working);
  }

  /** Snapshot k+1 carries the number of turn k, and its side says whether
      that turn's player is the first listed player. */
  ghost predicate Labelled(snaps: seq<Snapshot>, turns: seq<ParsedTurn>, players: seq<string>)
  {
    |snaps| == |turns| + 1 &&
    forall k :: 0 <= k < |turns| ==>
      snaps[k + 1].turnNumber == turns[k].number && snaps[k + 1].side == SnapshotSide(turns[k].player, players)
  }

  /** No two snapshots share a record. */
  ghost predicate OwnRecords(snaps: seq<Snapshot>)
  {
    forall j, k :: 0 <= j < k < |snaps| ==> snaps[j].board != snaps[k].board
  }

  lemma LabelledStep(snaps: seq<Snapshot>, turns: seq<ParsedTurn>, players: seq<string>, i: nat, s: Snapshot)
    requires i < |turns| && Labelled(snaps, turns[..i], players)
    requires s.turnNumber == turns[i].number && s.side == SnapshotSide(turns[i].player, players)
    ensures Labelled(snaps + [s], turns[..i + 1], players)
  {
    var longer := snaps + [s];
    var done := turns[..i + 1];
    forall k | 0 <= k < i + 1
      ensures longer[k + 1].turnNumber == done[k].number
      ensures longer[k + 1].side == SnapshotSide(done[k].player, players)
    {
      if k < i {
        assert longer[k + 1] == snaps[k + 1] && turns[..i][k] == turns[k];
      }
    }
  }

  lemma OwnRecordsStep(snaps: seq<Snapshot>, s: Snapshot)
    requires OwnRecords(snaps)
    requires forall k :: 0 <= k < |snaps| ==> snaps[k].board != s.board
    ensures OwnRecords(snaps + [s])
  {
    var longer := snaps + [s];
    forall j, k | 0 <= j < k < |longer|
      ensures longer[j].board != longer[k].board
    {
      assert longer[j] == snaps[j];
      if k < |snaps| {
        assert longer[k] == snaps[k];
      }
    }
  }

  /** The turn loop of `buildSnapshots`: each turn's lines are applied to
      the working record, and a copy of it is taken for the turn's
      snapshot. */
  method SnapshotTurns(log: ParsedLog, players: seq<string>, initial: Snapshot, working: Board) returns (snaps: seq<Snapshot>)
    requires initial.board != working
    requires initial.turnNumber == 0 && initial.side == First
    requires initial.board.View() == SnapshotTables(log, players)[0]
    requires working.View() == SnapshotTables(log, players)[0]
    modifies working
    ensures |snaps| == |log.turns| + 1 && snaps[0] == initial
    ensures forall k :: 0 <= k < |log.turns| ==>
      snaps[k + 1].turnNumber == log.turns[k].number && snaps[k + 1].side == SnapshotSide(log.turns[k].player, players)
    ensures forall k :: 1 <= k < |snaps| ==> fresh(snaps[k].board)
    ensures forall k :: 0 <= k < |snaps| ==> snaps[k].board.View() == SnapshotTables(log, players)[k]
    ensures forall j, k :: 0 <= j < k < |snaps| ==> snaps[j].board != snaps[k].board
  {
    ghost var tables := SnapshotTables(log, players);
    snaps := [initial];
    var i := 0;
    while i < |log.turns|
      invariant 0 <= i <= |log.turns| && |snaps| == i + 1 && snaps[0] == initial
      invariant Labelled(snaps, log.turns[..i], players)
      invariant OwnRecords(snaps)
      invariant working.View() == tables[i]
      invariant forall k :: 1 <= k <= i ==> fresh(snaps[k].board)
      invariant forall k :: 0 <= k <= i ==> snaps[k].board.View() == tables[k]
      invariant forall k :: 0 <= k <= i ==> snaps[k].board != working
    {
      var s := SnapshotOfTurn(log, players, working, i);
      LabelledStep(snaps, log.turns, players, i, s);
      OwnRecordsStep(snaps, s);
      snaps := snaps + [s];
      i := i + 1;
    }
    assert log.turns[..i] == log.turns;
  }

  /** Turn `i` of the loop of `buildSnapshots`: the working record moves on
      from board `i` to board `i+1`, and the turn's snapshot gets a fresh copy
      of it. */
  method SnapshotOfTurn(log: ParsedLog, players: seq<string>, working: Board, i: nat) returns (s: Snapshot)
    requires i < |log.turns| && working.View() == SnapshotTables(log, players)[i]
    modifies working
    ensures working.View() == SnapshotTables(log, players)[i + 1]
    ensures fresh(s.board) && s.board.View() == SnapshotTables(log, players)[i + 1]
    ensures s.turnNumber == log.turns[i].number && s.side == SnapshotSide(log.turns[i].player, players)
  {
    var turn := log.turns[i];
    SnapshotTablesStep(log, players, i);
    SnapshotsSound(log, players, i);
    var copy := PlayTurn(working, turn, players);
    s := Snapshot(turn.number, SnapshotSide(turn.player, players), copy);
  }

  /** The body of the turn loop of `buildSnapshots`: the turn's lines on the
      working record, then a copy of it for the snapshot. */
  method PlayTurn(working: Board, turn: ParsedTurn, players: seq<string>) returns (copy: Board)
    requires Sound(working.View())
    modifies working
    ensures working.View() == TurnFold(old(working.View()), turn.actions, turn.player, players)
    ensures Sound(working.View())
    ensures fresh(copy) && copy.View() == working.View()
  {
    TurnFoldSound(working.View(), turn.actions, turn.player, players);
    working.ApplyTurn(turn.actions, turn.player, players);
    copy := working.Clone();
  }

  // ---------------------------------------------------------------------
  // Steps
  // ---------------------------------------------------------------------

  datatype ViewerStep = ViewerStep(id: string, turnNumber: int, player: string, side: Side, actions: seq<string>)

  /** The text a step shows for an action: its text when that is not empty,
      else the (empty) plain line itself, else `render(action)`, which
      stands for `JSON.stringify`. */
  function StepText(a: ParsedAction, render: ParsedAction -> string): string
  {
    match ActionText(a)
    case Some(raw) => if raw != [] then raw else if a.Plain? then a.text else render(a)
    case None => render(a)
  }

  /** `${turn.number}-${index}`. */
  function StepId(number: int, index: nat): string
  {
    IntToString(number) + "-" + NatToString(index)
  }

  /** `buildSteps(log, players)`: one step per turn, in turn order. */
  function BuildSteps(log: ParsedLog, players: seq<string>, render: ParsedAction -> string): (steps: seq<ViewerStep>)
    ensures |steps| == |log.turns|
    ensures forall k :: 0 <= k < |steps| ==>
      steps[k].turnNumber == log.turns[k].number && steps[k].player == log.turns[k].player &&
      |steps[k].actions| == |log.turns[k].actions|
  {
    var first := if |players| > 0 then players[0] else "";
    seq(|log.turns|, k requires 0 <= k < |log.turns| => StepOf(log.turns[k], k, first, render))
  }

  /** The step of the turn at `index`, the first player being `first`. */
  function StepOf(turn: ParsedTurn, index: nat, first: string, render: ParsedAction -> string): ViewerStep
  {
    var side := if turn.player == first then First else Second;
    ViewerStep(StepId(turn.number, index), turn.number, turn.player, side,
      seq(|turn.actions|, j requires 0 <= j < |turn.actions| => StepText(turn.actions[j], render)))
  }

  /** A step shows each action's own text when it has a non-empty one, a
      plain line as it is, and the rendering of any other action. */
  lemma StepActions(log: ParsedLog, players: seq<string>, render: ParsedAction -> string, k: nat, j: nat)
    requires k < |log.turns| && j < |log.turns[k].actions|
    ensures var a := log.turns[k].actions[j];
      var shown := BuildSteps(log, players, render)[k].actions[j];
      (a.Plain? ==> shown == a.text) &&
      (a.Structured? && a.raw.Some? && a.raw.value != [] ==> shown == a.raw.value) &&
      (a.Structured? && (a.raw.None? || a.raw.value == []) ==> shown == render(a))
  {
  }

  /** A digit string that ends a string after a '-' is no shorter than any
      other such digit string. */
  lemma DigitSuffixLength(x: string, d: string, y: string, e: string)
    requires forall k :: 0 <= k < |e| ==> IsDigit(e[k])
    requires x + "-" + d == y + "-" + e
    ensures |e| <= |d|
  {
    var s := x + "-" + d;
    assert s[|s| - |d| - 1] == '-';
    if |d| < |e| {
      assert false;
    }
  }

  /** Two digit strings that end the same string after a '-' are equal. */
  lemma DigitSuffix(x: string, d: string, y: string, e: string)
    requires forall k :: 0 <= k < |d| ==> IsDigit(d[k])
    requires forall k :: 0 <= k < |e| ==> IsDigit(e[k])
    requires x + "-" + d == y + "-" + e
    ensures d == e
  {
    DigitSuffixLength(x, d, y, e);
    DigitSuffixLength(y, e, x, d);
    var s := x + "-" + d;
    assert d == s[|s| - |d|..] == e;
  }

  /** The index after the last '-' tells step ids apart. */
  lemma StepIdInjective(a: int, i: nat, b: int, j: nat)
    requires StepId(a, i) == StepId(b, j)
    ensures i == j
  {
    DigitSuffix(IntToString(a), NatToString(i), IntToString(b), NatToString(j));
    NatToStringValue(i);
    NatToStringValue(j);
  }

  /** Step ids are unique, whatever the turn numbers. */
  lemma StepIdsDistinct(log: ParsedLog, players: seq<string>, render: ParsedAction -> string)
    ensures var steps := BuildSteps(log, players, render);
      forall j, k :: 0 <= j < k < |steps| ==> steps[j].id != steps[k].id
  {
    var steps := BuildSteps(log, players, render);
    forall j, k | 0 <= j < k < |steps|
      ensures steps[j].id != steps[k].id
    {
      if steps[j].id == steps[k].id {
        StepIdInjective(log.turns[j].number, j, log.turns[k].number, k);
      }
    }
  }

  /** Steps and snapshots give a turn the same side whenever a player is
      listed; with no players a step counts a turn of the empty-named player
      as `first`, and a snapshot never does. */
  lemma SidesAgree(log: ParsedLog, players: seq<string>, render: ParsedAction -> string, k: nat)
    requires k < |log.turns|
    ensures (BuildSteps(log, players, render)[k].side == SnapshotSide(log.turns[k].player, players)) <==>
      (|players| > 0 || log.turns[k].player != "")
  {
  }
}
