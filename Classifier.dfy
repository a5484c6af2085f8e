/**
  The classification chain of the sample-log script (parse_logsample.js):
  each turn line is tested against a fixed list of patterns, and the first
  one that matches decides the action's type and the fields read off the
  line. Every pattern is a hand matcher that searches the line the way the
  regular-expression engine does: start positions from the left, each lazy
  group from its shortest length up.
 */
module Classifier {
  import opened Wrappers
  import opened Text
  import opened Patterns

  /** What an action records besides its `raw` line, by type. */
  datatype Kind =
    | Draw(count: nat)
    | Attach(energy: string, target: string)
    | Attack(attackerOwner: string, attacker: string, attack: string, target: string, damage: nat,
             extra: Option<Extra>)
    | Evolve(from: string, to: string, toVstar: bool)
    | Play(card: string, place: Option<string>)
    | Knockout(koTarget: string)
    | VStar(detail: string)
    | SpecialCondition(condition: string, target: string)
    | Prize
    | PokemonCheckup
    | Result(detail: string)
    | Other

  /** `extra_damage` and `extra_reason` of an attack. */
  datatype Extra = Extra(damage: nat, reason: string)

  /** An action keeps its trimmed line as `raw`. */
  datatype Action = Action(raw: string, kind: Kind)

  // ---------------------------------------------------------------------
  // The patterns
  // ---------------------------------------------------------------------

  /** `/drew (\d+) cards?/i` at `p`: the number drawn. The greedy `\d+` cannot
      give digits back, since " card" must follow a non-digit. */
  function DrawAt(raw: string, p: nat): Option<nat>
  {
    if !LitAt(raw, p, "drew ") then None
    else
      var d := DigitRun(raw, p + 5);
      if d > 0 && LitAt(raw, p + 5 + d, " card") then NumberAt(raw, p + 5) else None
  }

  function DrawRe(raw: string): Option<nat>
  {
    Found(FirstSome(0, |raw|, (p: nat) => DrawAt(raw, p)))
  }

  /** `/drew a card/i`. */
  predicate DrawSingle(raw: string)
  {
    Contains(raw, "drew a card")
  }

  /** The end-anchored tail `(?: in the Active Spot| on the Bench| ...)?\.?$`
      of the attach pattern, spelled out. */
  const AttachTails: seq<string> := Cross(["", " in the Active Spot", " on the Bench"], ["", "."])

  /** The end-anchored tail of the evolve pattern. */
  const EvolveTails: seq<string> :=
    Cross(["", " on the Bench", " on the Active Spot", " in the Active Spot", " to the Bench"], ["", "."])

  /** The end-anchored tail of the play pattern; `(Active Spot|Bench|...)` is
      captured. */
  const PlayTails: seq<string> := Cross([""] + Suffixed(" to the ", Places), ["", "."])

  /** The places `(Active Spot|Bench|Stadium spot)` a play tail can name. */
  const Places: seq<string> := ["Active Spot", "Bench", "Stadium spot"]

  /** `(.+?) to (.+?)(?:tail)?\.?$` from position `c`: the first group ends
      at the first " to " after which the second group and a tail fit; the
      second group is the shortest that leaves a spelling of the tail. */
  function TwoGroups(raw: string, c: nat, tails: seq<string>): (r: Option<(string, string)>)
    requires c <= |raw|
  {
    Found(FirstSome(c + 1, |raw|, (q: nat) => GroupsTo(raw, c, q, tails)))
  }

  /** The two groups when the first one ends at `q`, before " to ". */
  function GroupsTo(raw: string, c: nat, q: nat, tails: seq<string>): Option<(string, string)>
    requires c <= |raw|
  {
    if c < q && LitAt(raw, q, " to ") then
      match ShortestHead(raw[q + 4..], tails)
      case Some(L) => Some((raw[c..q], raw[q + 4..q + 4 + L]))
      case None => None
    else None
  }

  /** `lit(.+?) to (.+?)(?:tail)?\.?$` with `lit` at `p`. */
  function GroupsAfter(raw: string, p: nat, lit: string, tails: seq<string>): Option<(string, string)>
  {
    if LitAt(raw, p, lit) then TwoGroups(raw, p + |lit|, tails) else None
  }

  /** `/attached (.+?) to (.+?)(?: in the Active Spot| on the Bench)?\.?$/i`:
      the energy and the target. */
  function AttachRe(raw: string): Option<(string, string)>
  {
    Found(FirstSome(0, |raw|, (p: nat) => GroupsAfter(raw, p, "attached ", AttachTails)))
  }

  /** `/evolved (.+?) to (.+?)(?: on the Bench| ...)?\.?$/i`: from and to. */
  function EvolveRe(raw: string): Option<(string, string)>
  {
    Found(FirstSome(0, |raw|, (p: nat) => GroupsAfter(raw, p, "evolved ", EvolveTails)))
  }

  /** `/evolved (.+?) to (.+?VSTAR|V STAR)/i`, as a test. */
  predicate VstarEvolve(raw: string)
  {
    FirstSome(0, |raw|, (p: nat) =>
      if LitAt(raw, p, "evolved ") then
        FirstSome(p + 9, |raw|, (q: nat) =>
          if p + 8 < q && LitAt(raw, q, " to ") &&
             (FindLit(raw, "VSTAR", q + 5).Some? || LitAt(raw, q, " to V STAR"))
          then Some(()) else None)
      else None).Some?
  }

  /** The captures of the attack pattern. */
  datatype AttackParts = AttackParts(owner: string, attacker: string, attack: string, target: string, damage: nat)

  /** `(.+?) for (\d+) damage` from position `c`: the fourth group and the
      damage of the attack pattern. */
  function DamageTail(raw: string, c: nat): Option<(string, nat)>
    requires c <= |raw|
  {
    Found(FirstSome(c + 1, |raw|, (u: nat) => DamageAt(raw, c, u)))
  }

  /** The fourth group and the damage when the group ends at `u`. */
  function DamageAt(raw: string, c: nat, u: nat): Option<(string, nat)>
    requires c <= |raw|
  {
    if c < u && LitAt(raw, u, " for ") then
      var d := DigitRun(raw, u + 5);
      if d > 0 && LitAt(raw, u + 5 + d, " damage") then
        match NumberAt(raw, u + 5)
        case Some(n) => Some((raw[c..u], n))
        case None => None
      else None
    else None
  }

  /** `/(.+?)'s (.+?) used (.+?) on (.+?) for (\d+) damage/i`. A match from a
      later start would also be one from the start of the line (the first
      group takes any characters), so the search starts there only. */
  function AttackRe(raw: string): Option<AttackParts>
  {
    Found(FirstSome(1, |raw|, (a: nat) => AttackOwner(raw, a)))
  }

  /** The first group ends at `a`, before "'s ". */
  function AttackOwner(raw: string, a: nat): Option<AttackParts>
  {
    if LitAt(raw, a, "'s ") then Found(FirstSome(a + 4, |raw|, (b: nat) => AttackUsed(raw, a, b))) else None
  }

  /** The second group ends at `b`, before " used ". */
  function AttackUsed(raw: string, a: nat, b: nat): Option<AttackParts>
  {
    if a + 3 < b && LitAt(raw, b, " used ") then Found(FirstSome(b + 7, |raw|, (c: nat) => AttackOn(raw, a, b, c)))
    else None
  }

  /** The third group ends at `c`, before " on ". */
  function AttackOn(raw: string, a: nat, b: nat, c: nat): Option<AttackParts>
  {
    if a + 3 < b && b + 6 < c && LitAt(raw, c, " on ") then
      match DamageTail(raw, c + 4)
      case Some((target, n)) => Some(AttackParts(raw[..a], raw[a + 3..b], raw[b + 6..c], target, n))
      case None => None
    else None
  }

  /** `/took (\d+) more damage because of (.+?) Weakness/i`. */
  function ExtraWeakRe(raw: string): Option<Extra>
  {
    Found(FirstSome(0, |raw|, (p: nat) => WeakAt(raw, p)))
  }

  /** The Weakness clause read from `p`. */
  function WeakAt(raw: string, p: nat): Option<Extra>
  {
    if LitAt(raw, p, "took ") then
      var d := DigitRun(raw, p + 5);
      var c := p + 5 + d + 24;
      if d > 0 && LitAt(raw, p + 5 + d, " more damage because of ") then
        match (NumberAt(raw, p + 5), FindLit(raw, " Weakness", c + 1))
        case (Some(n), Some(w)) => Some(Extra(n, raw[c..w]))
        case _ => None
      else None
    else None
  }

  /** `/played (.+?)(?: to the (Active Spot|Bench|Stadium spot))?\.?$/i`: the
      card, and the place when the tail names one. */
  function PlayedRe(raw: string): Option<(string, Option<string>)>
  {
    Found(FirstSome(0, |raw|, (p: nat) => PlayedAt(raw, p)))
  }

  /** The play pattern read from `p`. */
  function PlayedAt(raw: string, p: nat): Option<(string, Option<string>)>
  {
    HeadPlaceAt(raw, p, "played ", PlayTails)
  }

  /** `lit(.+?)tail$` with `lit` at `p`: the group and the place the tail names. */
  function HeadPlaceAt(raw: string, p: nat, lit: string, tails: seq<string>): Option<(string, Option<string>)>
  {
    match HeadAfter(raw, p, lit, tails)
    case Some(L) => Some((raw[p + |lit|..p + |lit| + L], PlacePart(raw[p + |lit| + L..])))
    case None => None
  }

  /** `lit(.+?)tail$` with `lit` at `p`: the length of the lazy group. */
  function HeadAfter(raw: string, p: nat, lit: string, tails: seq<string>): (r: Option<nat>)
    ensures r.Some? ==> (LitAt(raw, p, lit) && 1 <= r.value && p + |lit| + r.value <= |raw| &&
      OneOf(raw[p + |lit| + r.value..], tails))
  {
    if LitAt(raw, p, lit) then
      var r := ShortestHead(raw[p + |lit|..], tails);
      if r.Some? then
        assert raw[p + |lit|..][r.value..] == raw[p + |lit| + r.value..];
        r
      else r
    else None
  }

  /** The captured place of a play tail: what follows " to the ", without
      the optional final dot; the tails "" and "." capture nothing. */
  function PlacePart(tail: string): (r: Option<string>)
    ensures r.Some? ==> |r.value| < |tail|
  {
    var body := if tail != [] && tail[|tail| - 1] == '.' then tail[..|tail| - 1] else tail;
    if |body| > 8 then Some(body[8..]) else None
  }

  /** `/(.+?) was Knocked Out!?/i`: the knocked-out Pokémon. */
  function KnockoutRe(raw: string): Option<string>
  {
    match FindLit(raw, " was Knocked Out", 1)
    case Some(a) => Some(raw[..a])
    case None => None
  }

  /** `/(Legacy Star|Apex Dragon|VSTAR)/i`. */
  predicate VstarUse(raw: string)
  {
    Contains(raw, "Legacy Star") || Contains(raw, "Apex Dragon") || Contains(raw, "VSTAR")
  }

  const Conditions: seq<string> := ["Burned", "Poisoned", "Asleep", "Paralyzed", "Confused"]

  /** `/is now (Burned|Poisoned|Asleep|Paralyzed|Confused)/i`: the condition,
      as written in the line. */
  function SpecialCondRe(raw: string): Option<string>
  {
    Found(FirstSome(0, |raw|, (p: nat) => CondAt(raw, p)))
  }

  /** The condition pattern read from `p`. */
  function CondAt(raw: string, p: nat): Option<string>
  {
    if LitAt(raw, p, "is now ") then
      match AltAt(raw, p + 7, Conditions)
      case Some(alt) => Some(raw[p + 7..p + 7 + |alt|])
      case None => None
    else None
  }

  /** `raw.split(' is now ')[0]`: the text before the first exact
      occurrence of the separator, or the whole line. */
  function BeforeIsNow(raw: string): (r: string)
    ensures r <= raw
  {
    match FindExact(raw, " is now ", 0)
    case Some(q) => raw[..q]
    case None => raw
  }

  /** `/took a Prize card/i`. */
  predicate PrizeLine(raw: string)
  {
    Contains(raw, "took a Prize card")
  }

  /** `/^Pokémon Checkup/i`. */
  predicate CheckupLine(raw: string)
  {
    LitAt(raw, 0, "Pokémon Checkup")
  }

  /** `/(You conceded\.|wins\.?|wins!|conceded\.)/i`, as a test; `wins\.?`
      already matches wherever "wins" occurs. */
  predicate WinnerLine(raw: string)
  {
    Contains(raw, "You conceded.") || Contains(raw, "wins") || Contains(raw, "wins!") || Contains(raw, "conceded.")
  }

  // ---------------------------------------------------------------------
  // What the patterns read
  // ---------------------------------------------------------------------

  /** "drew ", a digit run whose value is `n`, then " card", from `p`. */
  predicate DrawnAt(raw: string, p: nat, n: nat)
  {
    LitAt(raw, p, "drew ") && DigitRun(raw, p + 5) > 0 && NumberAt(raw, p + 5) == Some(n) &&
    LitAt(raw, p + 5 + DigitRun(raw, p + 5), " card")
  }

  /** The number the draw pattern captures is the digit run after a
      "drew " that is followed by digits and " card". */
  lemma DrawReSound(raw: string)
    requires DrawRe(raw).Some?
    ensures exists p: nat :: DrawnAt(raw, p, DrawRe(raw).value)
  {
    var r := FirstSome(0, |raw|, (p: nat) => DrawAt(raw, p));
    var p := r.value.0;
    assert DrawAt(raw, p) == DrawRe(raw);
    assert DrawnAt(raw, p, DrawRe(raw).value);
  }

  /** Two groups with the first ending at `q`: the line holds `v.0` from `c`,
      then " to ", then `v.1`, and the rest of the line is a spelling of the
      tail; both groups are non-empty. */
  predicate GroupsRead(raw: string, c: nat, q: nat, v: (string, string), tails: seq<string>)
  {
    c < q && LitAt(raw, q, " to ") && v.0 == raw[c..q] &&
    v.1 != [] && q + 4 + |v.1| <= |raw| && v.1 == raw[q + 4..q + 4 + |v.1|] &&
    OneOf(raw[q + 4 + |v.1|..], tails)
  }

  lemma TwoGroupsSound(raw: string, c: nat, tails: seq<string>)
    requires c <= |raw| && TwoGroups(raw, c, tails).Some?
    ensures exists q: nat :: GroupsRead(raw, c, q, TwoGroups(raw, c, tails).value, tails)
  {
    var r := FirstSome(c + 1, |raw|, (q: nat) => GroupsTo(raw, c, q, tails));
    var q := r.value.0;
    assert GroupsTo(raw, c, q, tails) == TwoGroups(raw, c, tails);
    var L := ShortestHead(raw[q + 4..], tails).value;
    assert raw[q + 4..][L..] == raw[q + 4 + L..];
    assert GroupsRead(raw, c, q, TwoGroups(raw, c, tails).value, tails);
  }

  /** `lit` at `p`, then the two groups. */
  predicate LitGroupsRead(raw: string, p: nat, q: nat, lit: string, v: (string, string), tails: seq<string>)
  {
    LitAt(raw, p, lit) && GroupsRead(raw, p + |lit|, q, v, tails)
  }

  /** `lit` at `p`, then the two groups. */
  lemma GroupsAfterSound(raw: string, p: nat, lit: string, tails: seq<string>)
    requires GroupsAfter(raw, p, lit, tails).Some?
    ensures exists q: nat :: LitGroupsRead(raw, p, q, lit, GroupsAfter(raw, p, lit, tails).value, tails)
  {
    var v := GroupsAfter(raw, p, lit, tails).value;
    assert LitAt(raw, p, lit) && TwoGroups(raw, p + |lit|, tails) == Some(v);
    TwoGroupsSound(raw, p + |lit|, tails);
    var q: nat :| GroupsRead(raw, p + |lit|, q, v, tails);
    assert LitGroupsRead(raw, p, q, lit, v, tails);
  }

  /** The energy and the target of an attach line, in this order after
      "attached " and around " to ", and an attach tail ends the line. */
  lemma AttachReSound(raw: string)
    requires AttachRe(raw).Some?
    ensures exists p: nat, q: nat :: LitGroupsRead(raw, p, q, "attached ", AttachRe(raw).value, AttachTails)
  {
    var r := FirstSome(0, |raw|, (p: nat) => GroupsAfter(raw, p, "attached ", AttachTails));
    var p := r.value.0;
    assert GroupsAfter(raw, p, "attached ", AttachTails) == AttachRe(raw);
    GroupsAfterSound(raw, p, "attached ", AttachTails);
  }

  /** The from and to of an evolve line, after "evolved " and around " to ",
      and an evolve tail ends the line. */
  lemma EvolveReSound(raw: string)
    requires EvolveRe(raw).Some?
    ensures exists p: nat, q: nat :: LitGroupsRead(raw, p, q, "evolved ", EvolveRe(raw).value, EvolveTails)
  {
    var r := FirstSome(0, |raw|, (p: nat) => GroupsAfter(raw, p, "evolved ", EvolveTails));
    var p := r.value.0;
    assert GroupsAfter(raw, p, "evolved ", EvolveTails) == EvolveRe(raw);
    GroupsAfterSound(raw, p, "evolved ", EvolveTails);
  }

  /** The five captures of the attack pattern in the line: owner before
      "'s " at `a`, attacker before " used " at `b`, attack before " on " at
      `c`, target before " for " at `u`, then the damage digits and
      " damage". Every group is non-empty. */
  predicate AttackRead(raw: string, a: nat, b: nat, c: nat, u: nat, v: AttackParts)
  {
    1 <= a && a + 3 < b && b + 6 < c && c + 4 < u &&
    LitAt(raw, a, "'s ") && LitAt(raw, b, " used ") && LitAt(raw, c, " on ") && LitAt(raw, u, " for ") &&
    v.owner == raw[..a] && v.attacker == raw[a + 3..b] && v.attack == raw[b + 6..c] && v.target == raw[c + 4..u] &&
    DigitRun(raw, u + 5) > 0 && NumberAt(raw, u + 5) == Some(v.damage) &&
    LitAt(raw, u + 5 + DigitRun(raw, u + 5), " damage")
  }

  lemma AttackReSound(raw: string)
    requires AttackRe(raw).Some?
    ensures exists a: nat, b: nat, c: nat, u: nat :: AttackRead(raw, a, b, c, u, AttackRe(raw).value)
  {
    var r := FirstSome(1, |raw|, (a: nat) => AttackOwner(raw, a));
    var a := r.value.0;
    assert AttackOwner(raw, a) == AttackRe(raw);
    var b, c, u := AttackOwnerSound(raw, a);
  }

  lemma AttackOwnerSound(raw: string, a: nat) returns (b: nat, c: nat, u: nat)
    requires 1 <= a && AttackOwner(raw, a).Some?
    ensures AttackRead(raw, a, b, c, u, AttackOwner(raw, a).value)
  {
    var r := FirstSome(a + 4, |raw|, (b: nat) => AttackUsed(raw, a, b));
    b := r.value.0;
    assert AttackUsed(raw, a, b) == AttackOwner(raw, a);
    c, u := AttackUsedSound(raw, a, b);
  }

  lemma AttackUsedSound(raw: string, a: nat, b: nat) returns (c: nat, u: nat)
    requires 1 <= a && LitAt(raw, a, "'s ") && AttackUsed(raw, a, b).Some?
    ensures AttackRead(raw, a, b, c, u, AttackUsed(raw, a, b).value)
  {
    var r := FirstSome(b + 7, |raw|, (c: nat) => AttackOn(raw, a, b, c));
    c := r.value.0;
    assert AttackOn(raw, a, b, c) == AttackUsed(raw, a, b);
    u := AttackOnSound(raw, a, b, c);
  }

  lemma AttackOnSound(raw: string, a: nat, b: nat, c: nat) returns (u: nat)
    requires 1 <= a && LitAt(raw, a, "'s ") && LitAt(raw, b, " used ") && AttackOn(raw, a, b, c).Some?
    ensures AttackRead(raw, a, b, c, u, AttackOn(raw, a, b, c).value)
  {
    var v := AttackOn(raw, a, b, c).value;
    u := DamageTailSound(raw, c + 4, (v.target, v.damage));
  }

  /** The fourth group `t.0` runs from `c` to the " for " at `u`, and the
      digits after it, followed by " damage", spell `t.1`. */
  predicate DamageRead(raw: string, c: nat, u: nat, t: (string, nat))
  {
    c < u && LitAt(raw, u, " for ") && t.0 == raw[c..u] &&
    DigitRun(raw, u + 5) > 0 && NumberAt(raw, u + 5) == Some(t.1) &&
    LitAt(raw, u + 5 + DigitRun(raw, u + 5), " damage")
  }

  lemma DamageTailSound(raw: string, c: nat, t: (string, nat)) returns (u: nat)
    requires c <= |raw| && DamageTail(raw, c) == Some(t)
    ensures DamageRead(raw, c, u, t)
  {
    var r := FirstSome(c + 1, |raw|, (u: nat) => DamageAt(raw, c, u));
    u := r.value.0;
    assert DamageAt(raw, c, u) == Some(t);
    DamageAtSound(raw, c, u);
  }

  lemma DamageAtSound(raw: string, c: nat, u: nat)
    requires c <= |raw| && DamageAt(raw, c, u).Some?
    ensures DamageRead(raw, c, u, DamageAt(raw, c, u).value)
  {
  }

  /** The Weakness clause: "took ", the digits of the extra damage, " more
      damage because of ", the non-empty reason, then the first " Weakness"
      after it. */
  predicate WeakRead(raw: string, p: nat, w: nat, e: Extra)
  {
    LitAt(raw, p, "took ") && DigitRun(raw, p + 5) > 0 && NumberAt(raw, p + 5) == Some(e.damage) &&
    LitAt(raw, p + 5 + DigitRun(raw, p + 5), " more damage because of ") &&
    p + 5 + DigitRun(raw, p + 5) + 24 < w && LitAt(raw, w, " Weakness") &&
    e.reason == raw[p + 5 + DigitRun(raw, p + 5) + 24..w]
  }

  lemma ExtraWeakReSound(raw: string)
    requires ExtraWeakRe(raw).Some?
    ensures exists p: nat, w: nat :: WeakRead(raw, p, w, ExtraWeakRe(raw).value)
  {
    var r := FirstSome(0, |raw|, (p: nat) => WeakAt(raw, p));
    var p := r.value.0;
    assert WeakAt(raw, p) == ExtraWeakRe(raw);
    var c := p + 5 + DigitRun(raw, p + 5) + 24;
    var w := FindLit(raw, " Weakness", c + 1).value;
    assert WeakRead(raw, p, w, ExtraWeakRe(raw).value);
  }

  /** The card of a play line is the non-empty text after "played " up to a
      spelling of the play tail that ends the line, and the place is what
      that tail names. */
  predicate PlayedRead(raw: string, p: nat, v: (string, Option<string>))
  {
    HeadPlaceRead(raw, p, "played ", PlayTails, v)
  }

  /** The group is read as in `HeadRead`, and the place is what the tail names. */
  predicate HeadPlaceRead(raw: string, p: nat, lit: string, tails: seq<string>, v: (string, Option<string>))
  {
    HeadRead(raw, p, lit, tails, v.0) && v.1 == PlacePart(raw[p + |lit| + |v.0|..])
  }

  /** `lit` at `p`, then the non-empty group `h`, then a spelling of the
      tail that ends the line. */
  predicate HeadRead(raw: string, p: nat, lit: string, tails: seq<string>, h: string)
  {
    LitAt(raw, p, lit) && h != [] && p + |lit| + |h| <= |raw| && h == raw[p + |lit|..p + |lit| + |h|] &&
    OneOf(raw[p + |lit| + |h|..], tails)
  }

  /** The tail that a read group leaves, and the place it names. */
  lemma PlaceTail(raw: string, p: nat, lit: string, tails: seq<string>, v: (string, Option<string>))
    returns (tail: string)
    requires HeadPlaceRead(raw, p, lit, tails, v)
    ensures OneOf(tail, tails) && v.1 == PlacePart(tail)
  {
    tail := raw[p + |lit| + |v.0|..];
  }

  lemma PlayedReSound(raw: string)
    requires PlayedRe(raw).Some?
    ensures exists p: nat :: PlayedRead(raw, p, PlayedRe(raw).value)
  {
    var r := FirstSome(0, |raw|, (p: nat) => PlayedAt(raw, p));
    var p := r.value.0;
    assert PlayedAt(raw, p) == PlayedRe(raw);
    var v := PlayedRe(raw).value;
    assert HeadPlaceAt(raw, p, "played ", PlayTails) == Some(v);
    HeadPlaceSound(raw, p, "played ", PlayTails);
    assert PlayedRead(raw, p, v);
  }

  lemma HeadPlaceSound(raw: string, p: nat, lit: string, tails: seq<string>)
    requires HeadPlaceAt(raw, p, lit, tails).Some?
    ensures HeadPlaceRead(raw, p, lit, tails, HeadPlaceAt(raw, p, lit, tails).value)
  {
    var L := HeadAfter(raw, p, lit, tails).value;
    assert |HeadPlaceAt(raw, p, lit, tails).value.0| == L;
  }

  /** On a spelling of the play tail, a place is captured exactly when the
      tail is not just the optional dot, and it spells one of the three
      places. */
  lemma PlacePartSound(t: string)
    requires OneOf(t, PlayTails)
    ensures PlacePart(t).Some? <==> !OneOf(t, ["", "."])
    ensures PlacePart(t).Some? ==> OneOf(PlacePart(t).value, Places)
  {
    var heads := [""] + Suffixed(" to the ", Places);
    var dots := ["", "."];
    var i, j := OneOfCross(t, heads, dots);
    if i == 0 {
      assert |t| <= 1;
      OneOfIn(t, dots, j);
    } else {
      var place := Places[i - 1];
      assert heads[i] == " to the " + place;
      PlaceOfTail(t, place, dots[j]);
      OneOfIn(PlacePart(t).value, Places, i - 1);
      if OneOf(t, dots) {
        var k := OneOfAt(t, dots);
      }
    }
  }

  lemma PlaceOfTail(t: string, place: string, dot: string)
    requires place in Places && (dot == "" || dot == ".")
    requires EqFold(t, " to the " + place + dot)
    ensures PlacePart(t).Some? && EqFold(PlacePart(t).value, place)
  {
    if dot == "." {
      assert Fold(t[|t| - 1]) == '.';
    } else {
      assert Fold(t[|t| - 1]) == Fold(place[|place| - 1]);
    }
    assert PlacePart(t).value == t[8..8 + |place|];
  }

  /** The knocked-out Pokémon is the non-empty text before the first
      " was Knocked Out" that has some text before it. */
  lemma KnockoutReSound(raw: string)
    ensures KnockoutRe(raw).Some? <==> exists a: nat :: 1 <= a && LitAt(raw, a, " was Knocked Out")
    ensures KnockoutRe(raw).Some? ==> exists a: nat :: (1 <= a && LitAt(raw, a, " was Knocked Out") &&
      KnockoutRe(raw).value == raw[..a] && forall k :: 1 <= k < a ==> !LitAt(raw, k, " was Knocked Out"))
  {
    match FindLit(raw, " was Knocked Out", 1)
    case Some(a) =>
    case None =>
  }

  /** `cond` is the text right after the "is now " at `p`. */
  predicate CondRead(raw: string, p: nat, cond: string)
  {
    LitAt(raw, p, "is now ") && p + 7 + |cond| <= |raw| && cond == raw[p + 7..p + 7 + |cond|]
  }

  /** The condition is the text after "is now " that spells one of the five
      conditions. */
  lemma SpecialCondReSound(raw: string)
    requires SpecialCondRe(raw).Some?
    ensures exists p: nat :: CondRead(raw, p, SpecialCondRe(raw).value)
    ensures exists alt :: alt in Conditions && EqFold(SpecialCondRe(raw).value, alt)
  {
    var r := FirstSome(0, |raw|, (p: nat) => CondAt(raw, p));
    var p := r.value.0;
    assert CondAt(raw, p) == SpecialCondRe(raw);
    var alt := AltAt(raw, p + 7, Conditions).value;
    assert alt in Conditions && EqFold(SpecialCondRe(raw).value, alt);
    assert |SpecialCondRe(raw).value| == |alt|;
    assert CondRead(raw, p, SpecialCondRe(raw).value);
  }

  /** The target of a condition line: the text before the first exact
      " is now ", or the whole line when there is none. */
  lemma BeforeIsNowSound(raw: string)
    ensures (exists q :: ExactAt(raw, q, " is now ")) ==> exists q: nat :: (ExactAt(raw, q, " is now ") &&
      BeforeIsNow(raw) == raw[..q] && forall k :: 0 <= k < q ==> !ExactAt(raw, k, " is now "))
    ensures (forall q :: !ExactAt(raw, q, " is now ")) ==> BeforeIsNow(raw) == raw
  {
    match FindExact(raw, " is now ", 0)
    case Some(q) =>
    case None =>
  }

  // ---------------------------------------------------------------------
  // The chain
  // ---------------------------------------------------------------------

  /** What every pattern of the chain makes of one line. The tests have no
      side effects, so evaluating all of them up front changes nothing. */
  datatype Matches = Matches(
    draw: Option<nat>, drawSingle: bool,
    attach: Option<(string, string)>,
    attack: Option<AttackParts>, extraWeak: Option<Extra>,
    evolve: Option<(string, string)>, vstarEvolve: bool,
    played: Option<(string, Option<string>)>,
    knockout: Option<string>,
    vstarUse: bool,
    specialCond: Option<string>, beforeIsNow: string,
    prize: bool, checkup: bool, winner: bool)

  function MatchesOf(raw: string): Matches
  {
    Matches(DrawRe(raw), DrawSingle(raw), AttachRe(raw), AttackRe(raw), ExtraWeakRe(raw),
      EvolveRe(raw), VstarEvolve(raw), PlayedRe(raw), KnockoutRe(raw), VstarUse(raw),
      SpecialCondRe(raw), BeforeIsNow(raw), PrizeLine(raw), CheckupLine(raw), WinnerLine(raw))
  }

  /** The tests of the chain, in the order they are tried. */
  datatype Rule =
    | RDraw | RAttach | RAttack | REvolve | RPlay | RKnockout | RVStar
    | RSpecialCondition | RPrize | RPokemonCheckup | RResult | ROther

  const RuleOrder: seq<Rule> := [RDraw, RAttach, RAttack, REvolve, RPlay, RKnockout, RVStar,
    RSpecialCondition, RPrize, RPokemonCheckup, RResult]

  /** Whether the test of a rule succeeds (the fallback always does). */
  predicate Fires(rule: Rule, m: Matches)
  {
    match rule
    case RDraw => m.draw.Some? || m.drawSingle
    case RAttach => m.attach.Some?
    case RAttack => m.attack.Some?
    case REvolve => m.evolve.Some?
    case RPlay => m.played.Some?
    case RKnockout => m.knockout.Some?
    case RVStar => m.vstarUse
    case RSpecialCondition => m.specialCond.Some?
    case RPrize => m.prize
    case RPokemonCheckup => m.checkup
    case RResult => m.winner
    case ROther => true
  }

  /** The first rule of the list, from position `i` on, whose test
      succeeds; `ROther` when none does. */
  function FirstFiring(rules: seq<Rule>, i: nat, m: Matches): (r: Rule)
    ensures r == ROther || exists k :: i <= k < |rules| && rules[k] == r && Fires(r, m) && FiresNoneIn(rules, i, k, m)
    ensures r == ROther && ROther !in rules ==> FiresNoneIn(rules, i, |rules|, m)
    decreases |rules| - i
  {
    if i >= |rules| then ROther
    else if Fires(rules[i], m) then rules[i]
    else FirstFiring(rules, i + 1, m)
  }

  /** No rule at a position in `[i, k)` fires. */
  predicate FiresNoneIn(rules: seq<Rule>, i: nat, k: nat, m: Matches)
  {
    forall j :: i <= j < k && j < |rules| ==> !Fires(rules[j], m)
  }

  /** The rule that produced a kind. */
  function RuleOf(k: Kind): Rule
  {
    match k
    case Draw(_) => RDraw
    case Attach(_, _) => RAttach
    case Attack(_, _, _, _, _, _) => RAttack
    case Evolve(_, _, _) => REvolve
    case Play(_, _) => RPlay
    case Knockout(_) => RKnockout
    case VStar(_) => RVStar
    case SpecialCondition(_, _) => RSpecialCondition
    case Prize => RPrize
    case PokemonCheckup => RPokemonCheckup
    case Result(_) => RResult
    case Other => ROther
  }

  /** The action of one turn line (`raw` already trimmed): the first rule
      of the chain that fires decides the type, and its branch reads the
      fields off the captures. */
  function Classify(raw: string): (a: Action)
    ensures a.raw == raw
  {
    var m := MatchesOf(raw);
    Action(raw, KindFor(FirstFiring(RuleOrder, 0, m), m, raw))
  }

  /** The branch of a rule whose test succeeded. */
  function KindFor(rule: Rule, m: Matches, raw: string): (k: Kind)
    requires Fires(rule, m)
    ensures RuleOf(k) == rule
  {
    match rule
    case RDraw => Draw(m.draw.GetOr(1))
    case RAttach => AttachKind(m.attach.value)
    case RAttack => AttackKind(m.attack.value, m.extraWeak)
    case REvolve => EvolveKind(m.evolve.value, m.vstarEvolve)
    case RPlay => PlayKind(m.played.value)
    case RKnockout => KnockoutKind(m.knockout.value)
    case RVStar => VStar(raw)
    case RSpecialCondition => ConditionKind(m.specialCond.value, m.beforeIsNow)
    case RPrize => Prize
    case RPokemonCheckup => PokemonCheckup
    case RResult => Result(raw)
    case ROther => Other
  }

  /** `action.energy = m[1].trim(); action.target = m[2].trim()`. */
  function AttachKind(m: (string, string)): (k: Kind)
    ensures k.Attach? && k.energy == Trim(m.0) && k.target == Trim(m.1)
  {
    Attach(Trim(m.0), Trim(m.1))
  }

  /** The attack fields, with `extra_damage` and `extra_reason` only when the
      Weakness clause matched. */
  function AttackKind(m: AttackParts, extra: Option<Extra>): (k: Kind)
    ensures k.Attack? && k.damage == m.damage
    ensures k.attackerOwner == Trim(m.owner) && k.attacker == Trim(m.attacker)
    ensures k.attack == Trim(m.attack) && k.target == Trim(m.target)
    ensures k.extra.Some? <==> extra.Some?
    ensures extra.Some? ==> k.extra.value == Extra(extra.value.damage, Trim(extra.value.reason))
  {
    Attack(Trim(m.owner), Trim(m.attacker), Trim(m.attack), Trim(m.target), m.damage,
      if extra.Some? then Some(Extra(extra.value.damage, Trim(extra.value.reason))) else None)
  }

  /** `to_vstar` is set when the VSTAR evolution pattern matches the line or
      the captured target names VSTAR. */
  function EvolveKind(m: (string, string), vstarEvolve: bool): (k: Kind)
    ensures k.Evolve? && k.from == Trim(m.0) && k.to == Trim(m.1)
    ensures k.toVstar <==> (vstarEvolve || Contains(m.1, "VSTAR"))
  {
    Evolve(Trim(m.0), Trim(m.1), vstarEvolve || Contains(m.1, "VSTAR"))
  }

  /** `action.to = m[2] ? m[2].trim() : null`. */
  function PlayKind(m: (string, Option<string>)): (k: Kind)
    ensures k.Play? && k.card == Trim(m.0)
    ensures k.place.Some? <==> m.1.Some?
    ensures m.1.Some? ==> k.place.value == Trim(m.1.value)
  {
    Play(Trim(m.0), if m.1.Some? then Some(Trim(m.1.value)) else None)
  }

  function KnockoutKind(target: string): (k: Kind)
    ensures k.Knockout? && k.koTarget == Trim(target)
  {
    Knockout(Trim(target))
  }

  /** The condition as captured; the target is the text before " is now ", trimmed. */
  function ConditionKind(condition: string, before: string): (k: Kind)
    ensures k.SpecialCondition? && k.condition == condition && k.target == Trim(before)
  {
    SpecialCondition(condition, Trim(before))
  }

  /** First match wins: the type of a line's action comes from a rule of
      the chain whose test succeeds on the line when no earlier rule's
      does, and it is `'other'` exactly when no test succeeds. */
  lemma ClassifyFirstMatch(raw: string)
    ensures var r := RuleOf(Classify(raw).kind);
      var m := MatchesOf(raw);
      (r == ROther <==> FiresNoneIn(RuleOrder, 0, |RuleOrder|, m)) &&
      (r != ROther ==> exists k :: 0 <= k < |RuleOrder| && RuleOrder[k] == r && Fires(r, m) && FiresNoneIn(RuleOrder, 0, k, m))
  {
    ChainFirstMatch(MatchesOf(raw));
  }

  lemma ChainFirstMatch(m: Matches)
    ensures var r := FirstFiring(RuleOrder, 0, m);
      (r == ROther <==> FiresNoneIn(RuleOrder, 0, |RuleOrder|, m)) &&
      (r != ROther ==> exists k :: 0 <= k < |RuleOrder| && RuleOrder[k] == r && Fires(r, m) && FiresNoneIn(RuleOrder, 0, k, m))
  {
    var r := FirstFiring(RuleOrder, 0, m);
    if r != ROther {
      var k :| 0 <= k < |RuleOrder| && RuleOrder[k] == r && Fires(r, m) && FiresNoneIn(RuleOrder, 0, k, m);
      assert !FiresNoneIn(RuleOrder, 0, |RuleOrder|, m) by {
        assert Fires(RuleOrder[k], m);
      }
    }
  }

  /** A draw counts the captured number, or one card for "drew a card". */
  lemma DrawCount(raw: string)
    requires Classify(raw).kind.Draw?
    ensures var m := MatchesOf(raw);
      Classify(raw).kind.count == (if m.draw.Some? then m.draw.value else 1) &&
      (m.draw.None? ==> DrawSingle(raw))
  {
  }

  /** An attack carries Weakness damage exactly when its line has the
      Weakness clause; it stays a single action either way. */
  lemma AttackExtra(raw: string)
    requires Classify(raw).kind.Attack?
    ensures Classify(raw).kind.extra.Some? <==> ExtraWeakRe(raw).Some?
    ensures Classify(raw).kind.extra.Some? ==> Classify(raw).kind.extra.value.damage == ExtraWeakRe(raw).value.damage
  {
    var m := MatchesOf(raw);
    var r := FirstFiring(RuleOrder, 0, m);
    var k := KindFor(r, m, raw);
    assert Classify(raw).kind == k;
    assert r == RAttack;
    assert k == AttackKind(m.attack.value, m.extraWeak);
    assert m.extraWeak == ExtraWeakRe(raw);
  }

  /** The kind of a line is the branch of a rule that fires on it. */
  lemma ClassifyBranch(raw: string)
    ensures Fires(RuleOf(Classify(raw).kind), MatchesOf(raw))
    ensures Classify(raw).kind == KindFor(RuleOf(Classify(raw).kind), MatchesOf(raw), raw)
  {
    var m := MatchesOf(raw);
    var r := FirstFiring(RuleOrder, 0, m);
    assert Fires(r, m);
    assert RuleOf(KindFor(r, m, raw)) == r;
  }

  /** An attach action's energy and target are the trimmed groups read
      after "attached " and around " to ". */
  lemma ClassifyAttachSound(raw: string)
    requires Classify(raw).kind.Attach?
    ensures exists p: nat, q: nat, v :: (LitGroupsRead(raw, p, q, "attached ", v, AttachTails) &&
      Classify(raw).kind == Attach(Trim(v.0), Trim(v.1)))
  {
    ClassifyBranch(raw);
    AttachReSound(raw);
  }

  /** An evolve action's from and to are the trimmed groups read after
      "evolved " and around " to ". */
  lemma ClassifyEvolveSound(raw: string)
    requires Classify(raw).kind.Evolve?
    ensures exists p: nat, q: nat, v :: (LitGroupsRead(raw, p, q, "evolved ", v, EvolveTails) &&
      Classify(raw).kind.from == Trim(v.0) && Classify(raw).kind.to == Trim(v.1))
  {
    ClassifyBranch(raw);
    EvolveReSound(raw);
  }

  /** An attack action's owner, attacker, attack, target and damage are
      the trimmed captures of the attack pattern, in this order in the line,
      and its Weakness damage and reason come from the Weakness clause. */
  lemma ClassifyAttackSound(raw: string)
    requires Classify(raw).kind.Attack?
    ensures exists a: nat, b: nat, c: nat, u: nat, v :: (AttackRead(raw, a, b, c, u, v) &&
      Classify(raw).kind == Attack(Trim(v.owner), Trim(v.attacker), Trim(v.attack), Trim(v.target), v.damage,
        Classify(raw).kind.extra))
    ensures Classify(raw).kind.extra.Some? ==> exists p: nat, w: nat, e :: (WeakRead(raw, p, w, e) &&
      Classify(raw).kind.extra.value == Extra(e.damage, Trim(e.reason)))
  {
    ClassifyAttack(raw);
    var k := Classify(raw).kind;
    var m := AttackRe(raw).value;
    AttackReSound(raw);
    var a: nat, b: nat, c: nat, u: nat :| AttackRead(raw, a, b, c, u, m);
    assert k == Attack(Trim(m.owner), Trim(m.attacker), Trim(m.attack), Trim(m.target), m.damage, k.extra);
    if k.extra.Some? {
      ExtraWeakReSound(raw);
      var p: nat, w: nat :| WeakRead(raw, p, w, ExtraWeakRe(raw).value);
    }
  }

  lemma ClassifyAttack(raw: string)
    requires Classify(raw).kind.Attack?
    ensures AttackRe(raw).Some? && Classify(raw).kind == AttackKind(AttackRe(raw).value, ExtraWeakRe(raw))
  {
    ClassifyBranch(raw);
  }

  /** A draw action counts the digits read between "drew " and " card", or
      one card when only "drew a card" occurs. */
  lemma ClassifyDrawSound(raw: string)
    requires Classify(raw).kind.Draw?
    ensures (exists p: nat :: DrawnAt(raw, p, Classify(raw).kind.count)) ||
      (Classify(raw).kind.count == 1 && DrawSingle(raw))
  {
    DrawCount(raw);
    if DrawRe(raw).Some? {
      DrawReSound(raw);
    }
  }

  /** A play action is built, as `PlayKind` states, from the card read
      after "played " and the place the play tail names, which is one of
      `Places` up to case. */
  lemma ClassifyPlaySound(raw: string)
    requires Classify(raw).kind.Play?
    ensures exists p: nat, v :: PlayedRead(raw, p, v) && Classify(raw).kind == PlayKind(v)
    ensures PlayedRe(raw).Some? && (PlayedRe(raw).value.1.Some? ==> OneOf(PlayedRe(raw).value.1.value, Places))
  {
    ClassifyPlay(raw);
    PlayedReSound(raw);
    PlayedPlaceSound(raw);
  }

  lemma ClassifyPlay(raw: string)
    requires Classify(raw).kind.Play?
    ensures PlayedRe(raw).Some? && Classify(raw).kind == PlayKind(PlayedRe(raw).value)
  {
    ClassifyBranch(raw);
  }

  /** The place a play line names is one of `Places`, up to case. */
  lemma PlayedPlaceSound(raw: string)
    requires PlayedRe(raw).Some?
    ensures PlayedRe(raw).value.1.Some? ==> OneOf(PlayedRe(raw).value.1.value, Places)
  {
    var v := PlayedRe(raw).value;
    PlayedReSound(raw);
    var p: nat :| PlayedRead(raw, p, v);
    var tail := PlaceTail(raw, p, "played ", PlayTails, v);
    PlacePartSound(tail);
  }

  /** A knock-out action's target is the trimmed text before the first
      " was Knocked Out" that has text before it. */
  lemma ClassifyKnockoutSound(raw: string)
    requires Classify(raw).kind.Knockout?
    ensures exists a: nat :: (1 <= a && LitAt(raw, a, " was Knocked Out") &&
      Classify(raw).kind.koTarget == Trim(raw[..a]) && forall k :: 1 <= k < a ==> !LitAt(raw, k, " was Knocked Out"))
  {
    ClassifyBranch(raw);
    KnockoutReSound(raw);
  }

  /** A condition action names a condition read after "is now ", and its
      target is the trimmed text before the first exact " is now ", or the
      whole trimmed line when there is none. */
  lemma ClassifyConditionSound(raw: string)
    requires Classify(raw).kind.SpecialCondition?
    ensures exists p: nat :: CondRead(raw, p, Classify(raw).kind.condition)
    ensures exists alt :: alt in Conditions && EqFold(Classify(raw).kind.condition, alt)
    ensures Classify(raw).kind.target == Trim(BeforeIsNow(raw))
  {
    ClassifyBranch(raw);
    var k := Classify(raw).kind;
    var c := SpecialCondRe(raw);
    assert c.Some? && k == ConditionKind(c.value, BeforeIsNow(raw));
    assert k.condition == c.value;
    SpecialCondReSound(raw);
  }
}
