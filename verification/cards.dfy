/** The card records the watcher extracts from a parsed game, and the
    resolution of the friendly and the opposing player. The game tree is what
    the external log parser's exporters hand back; it is taken as given. */
module Cards {
  import opened Optional
  import opened Seqs
  import opened JsonValue

  datatype Zone = InvalidZone | Play | Deck | Hand | Graveyard | RemovedFromGame | SetAside | Secret

  datatype GameTag = Controller | CreatorDbid | OtherTag(code: int)

  /** A game entity. `cardId` is `None` when the attribute is missing or None;
      `truthy` is what `if entity:` sees. */
  datatype Entity = Entity(id: int, tags: map<GameTag, int>, zone: Zone, cardId: Option<string>, truthy: bool)

  datatype Player = Player(playerId: int, tags: map<GameTag, int>, entities: seq<Entity>)

  /** The game object the entity-tree exporter returns. */
  datatype ExportedGame = ExportedGame(players: seq<Player>, entities: seq<Entity>)

  /** One game as the log parser returns it, with what the two exporters make of it:
      the friendly player's id, the exported game (`None` when falsy), and whether
      either exporter raises. */
  datatype ParsedGame = ParsedGame(friendlyId: Option<int>, tree: Option<ExportedGame>, exporterRaises: bool)

  /** `{"id": ..., "realId": ..., "cardId": ...}`. */
  datatype CardRecord = CardRecord(id: int, realId: int, cardId: Option<string>)

  function RecordOf(e: Entity): CardRecord {
    CardRecord(
      e.id,
      if CreatorDbid in e.tags then e.tags[CreatorDbid] else 0,
      if e.cardId.Some? && e.cardId.value != "" then e.cardId else None)
  }

  /** A known card id survives extraction unchanged; a missing or empty one becomes null;
      the creator id defaults to 0. */
  lemma RecordFields(e: Entity)
    ensures RecordOf(e).id == e.id
    ensures forall c :: c != "" ==> (RecordOf(e).cardId == Some(c) <==> e.cardId == Some(c))
    ensures RecordOf(e).cardId.None? <==> e.cardId.None? || e.cardId == Some("")
    ensures CreatorDbid !in e.tags ==> RecordOf(e).realId == 0
    ensures CreatorDbid in e.tags ==> RecordOf(e).realId == e.tags[CreatorDbid]
  {
  }

  function RecordJson(r: CardRecord): Json {
    JObj([("id", JInt(r.id)), ("realId", JInt(r.realId)), ("cardId", OptStr(r.cardId))])
  }

  /** The result of one extraction helper: its list, or the `[]` it returns
      from its `except` block after reporting the error. */
  datatype Extraction = Extracted(records: seq<CardRecord>) | ExtractionFailed {
    function Records(): seq<CardRecord> {
      if Extracted? then records else []
    }
  }

  /** `if assert_type(entity, Card)`: `assert_type` returns its argument, so
      only the entity's truthiness is tested. */
  predicate IsCard(e: Entity) { e.truthy }

  function Records(es: seq<Entity>): (r: seq<CardRecord>)
    ensures |r| == |es|
  {
    Map(es, RecordOf)
  }

  /** `get_all_player_cards(player)`: one record per entity of the player;
      `None` in place of a player fails on `player.entities`. */
  function AllPlayerCards(p: Option<Player>): (x: Extraction)
    ensures x.ExtractionFailed? <==> p.None?
    ensures p.Some? ==> x.records == Records(Filter(p.value.entities, IsCard))
  {
    match p
    case None => ExtractionFailed
    case Some(pl) => Extracted(CardsIn(pl.entities))
  }

  /** The loop of `get_all_player_cards` / `get_all_cards`. */
  function CardsIn(es: seq<Entity>): (r: seq<CardRecord>)
    ensures r == Records(Filter(es, IsCard))
    decreases |es|
  {
    if |es| == 0 then []
    else if IsCard(es[0]) then [RecordOf(es[0])] + CardsIn(es[1..])
    else CardsIn(es[1..])
  }

  /** `get_all_cards(game)`: never fails. */
  function AllCards(g: ExportedGame): seq<CardRecord> {
    CardsIn(g.entities)
  }

  /** `get_grave(player)`: the player's entities in the graveyard. */
  function Grave(p: Option<Player>): (x: Extraction)
    ensures x.ExtractionFailed? <==> p.None?
    ensures p.Some? ==> x.records == Records(Filter(p.value.entities, (e: Entity) => IsCard(e) && e.zone == Graveyard))
  {
    match p
    case None => ExtractionFailed
    case Some(pl) => Extracted(GraveIn(pl.entities))
  }

  function GraveIn(es: seq<Entity>): (r: seq<CardRecord>)
    ensures r == Records(Filter(es, (e: Entity) => IsCard(e) && e.zone == Graveyard))
    decreases |es|
  {
    if |es| == 0 then []
    else if IsCard(es[0]) && es[0].zone == Graveyard then [RecordOf(es[0])] + GraveIn(es[1..])
    else GraveIn(es[1..])
  }

  /** Whether the CONTROLLER lookups for an entity in the zone raise:
      `entity.tags[CONTROLLER]` or `owner.tags[CONTROLLER]` missing, or no owner. */
  predicate LookupFails(e: Entity, owner: Option<Player>) {
    Controller !in e.tags || owner.None? || Controller !in owner.value.tags
  }

  /** An entity in `zone` whose controller is `owner`'s. */
  predicate ControlledIn(e: Entity, zone: Zone, owner: Option<Player>) {
    IsCard(e) && e.zone == zone && !LookupFails(e, owner) && e.tags[Controller] == owner.value.tags[Controller]
  }

  /** The loop shared by `get_my_hand` (zone HAND) and `get_field` (zone PLAY). */
  function ZoneCards(es: seq<Entity>, zone: Zone, owner: Option<Player>): (x: Extraction)
    ensures x.ExtractionFailed? <==> exists i :: 0 <= i < |es| && IsCard(es[i]) && es[i].zone == zone && LookupFails(es[i], owner)
    ensures x.Extracted? ==> x.records == Records(Filter(es, (e: Entity) => ControlledIn(e, zone, owner)))
    decreases |es|
  {
    if |es| == 0 then Extracted([])
    else
      var e := es[0];
      var rest := ZoneCards(es[1..], zone, owner);
      assert forall i :: 1 <= i < |es| ==> es[i] == es[1..][i - 1];
      if IsCard(e) && e.zone == zone then
        if LookupFails(e, owner) then ExtractionFailed
        else if rest.ExtractionFailed? then ExtractionFailed
        else if e.tags[Controller] == owner.value.tags[Controller] then Extracted([RecordOf(e)] + rest.records)
        else rest
      else rest
  }

  function MyHand(me: Option<Player>, g: ExportedGame): Extraction {
    ZoneCards(g.entities, Hand, me)
  }

  function Field(p: Option<Player>, g: ExportedGame): Extraction {
    ZoneCards(g.entities, Play, p)
  }

  /** `(me, enemy, exported_game)` from `get_last_game_players`. */
  datatype Sides = Sides(me: Option<Player>, enemy: Option<Player>, game: ExportedGame)

  /** The loop over players: the player whose id is the friendly id becomes
      `me`, every other one `enemy`, a later one overwriting an earlier one. */
  function AssignSides(players: seq<Player>, friendly: Option<int>, me: Option<Player>, enemy: Option<Player>)
    : (Option<Player>, Option<Player>)
    decreases |players|
  {
    if |players| == 0 then (me, enemy)
    else if Some(players[0].playerId) == friendly then AssignSides(players[1..], friendly, Some(players[0]), enemy)
    else AssignSides(players[1..], friendly, me, Some(players[0]))
  }

  predicate IsFriendly(friendly: Option<int>, p: Player) { Some(p.playerId) == friendly }

  /** `me` is the last friendly player and `enemy` the last other player;
      either stays at its starting value when there is none. */
  lemma {:induction false} AssignSidesIsLastWhere(players: seq<Player>, friendly: Option<int>, me: Option<Player>, enemy: Option<Player>)
    ensures AssignSides(players, friendly, me, enemy).0 ==
      (var m := LastWhere(players, (p: Player) => IsFriendly(friendly, p)); if m.Some? then m else me)
    ensures AssignSides(players, friendly, me, enemy).1 ==
      (var o := LastWhere(players, (p: Player) => !IsFriendly(friendly, p)); if o.Some? then o else enemy)
    decreases |players|
  {
    if |players| > 0 {
      var rest := players[1..];
      var isMe := (p: Player) => IsFriendly(friendly, p);
      var notMe := (p: Player) => !IsFriendly(friendly, p);
      LastWhereCons(players, isMe);
      LastWhereCons(players, notMe);
      if IsFriendly(friendly, players[0]) {
        AssignSidesIsLastWhere(rest, friendly, Some(players[0]), enemy);
      } else {
        AssignSidesIsLastWhere(rest, friendly, me, Some(players[0]));
      }
    }
  }

  /** `get_last_game_players()`: `None` when there is no game, an exporter
      raises, or the exported game is falsy. */
  function LastGamePlayers(games: seq<ParsedGame>): (r: Option<Sides>)
    ensures r.Some? <==> |games| > 0 && !games[|games| - 1].exporterRaises && games[|games| - 1].tree.Some?
    ensures r.Some? ==>
      var g := games[|games| - 1];
      && r.value.game == g.tree.value
      && r.value.me == LastWhere(g.tree.value.players, (p: Player) => IsFriendly(g.friendlyId, p))
      && r.value.enemy == LastWhere(g.tree.value.players, (p: Player) => !IsFriendly(g.friendlyId, p))
  {
    if |games| == 0 then None
    else
      var g := games[|games| - 1];
      if g.exporterRaises || g.tree.None? then None
      else
        var sides := AssignSides(g.tree.value.players, g.friendlyId, None, None);
        AssignSidesIsLastWhere(g.tree.value.players, g.friendlyId, None, None);
        Some(Sides(sides.0, sides.1, g.tree.value))
  }

  /** With two players of different ids, one of them friendly, `me` is that
      one and `enemy` the other. */
  lemma TwoPlayers(a: Player, b: Player, friendly: int, g: ExportedGame, rest: seq<ParsedGame>)
    requires a.playerId != b.playerId
    requires friendly == a.playerId || friendly == b.playerId
    requires g.players == [a, b]
    ensures
      var r := LastGamePlayers(rest + [ParsedGame(Some(friendly), Some(g), false)]);
      && r.Some?
      && r.value.me == Some(if friendly == a.playerId then a else b)
      && r.value.enemy == Some(if friendly == a.playerId then b else a)
  {
    var games := rest + [ParsedGame(Some(friendly), Some(g), false)];
    assert games[|games| - 1] == ParsedGame(Some(friendly), Some(g), false);
    var isMe := (p: Player) => IsFriendly(Some(friendly), p);
    var notMe := (p: Player) => !IsFriendly(Some(friendly), p);
    assert [a, b][..1] == [a];
    assert [a][..0] == [];
    assert LastWhere([a], isMe) == (if isMe(a) then Some(a) else None);
    assert LastWhere([a], notMe) == (if notMe(a) then Some(a) else None);
    assert LastWhere([a, b], isMe) == (if isMe(b) then Some(b) else LastWhere([a], isMe));
    assert LastWhere([a, b], notMe) == (if notMe(b) then Some(b) else LastWhere([a], notMe));
  }

  /** The `{"my_cards": ..., "enemy_cards": ...}` snapshot sent each cycle. */
  datatype Snapshot = Snapshot(myCards: seq<CardRecord>, enemyCards: seq<CardRecord>)

  function SnapshotJson(s: Snapshot): Json {
    JObj([("my_cards", JArr(Map(s.myCards, RecordJson))), ("enemy_cards", JArr(Map(s.enemyCards, RecordJson)))])
  }
}
