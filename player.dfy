/**
 * Player movement: the wall check and clamp applied to every entity that is
 * a player, and the table from keys to the four unit steps.
 */
module Player {

  import opened Wrappers
  import opened Components
  import opened Map

  /**
   * The keys the input handler distinguishes. Numpad2 is listed because the
   * table does not bind it; every other key code is `Other`.
   */
  datatype Key =
    | Left | Right | Up | Down
    | Numpad2 | Numpad4 | Numpad5 | Numpad6 | Numpad8
    | A | D | H | J | K | L | S | W
    | Other(code: nat)

  /** One of the four unit cardinal steps. */
  predicate IsUnitStep(d: (int, int)) {
    d in {(-1, 0), (1, 0), (0, -1), (0, 1)}
  }

  /**
   * The key alias table: four groups of four keys, each group bound to one
   * unit step; every other key is bound to nothing. Down is also Numpad5,
   * not Numpad2.
   */
  function KeyDelta(key: Key): (d: Option<(int, int)>)
    ensures d.Some? ==> IsUnitStep(d.value)
    ensures d == Some((-1, 0)) <==> key in {Left, Numpad4, A, H}
    ensures d == Some((1, 0)) <==> key in {Right, Numpad6, D, L}
    ensures d == Some((0, -1)) <==> key in {Up, Numpad8, W, K}
    ensures d == Some((0, 1)) <==> key in {Down, Numpad5, S, J}
    ensures d == None <==> key.Other? || key == Numpad2
  {
    match key
    case Left | Numpad4 | A | H => Some((-1, 0))
    case Right | Numpad6 | D | L => Some((1, 0))
    case Up | Numpad8 | W | K => Some((0, -1))
    case Down | Numpad5 | S | J => Some((0, 1))
    case _ => None
  }

  function Min(a: int, b: int): (r: int) { if a <= b then a else b }

  function Max(a: int, b: int): (r: int) { if a >= b then a else b }

  /** min(hi, max(lo, v)): v pulled into [lo, hi]. */
  function Clamp(v: int, lo: int, hi: int): (r: int)
    requires lo <= hi
    ensures lo <= r <= hi
    ensures lo <= v <= hi ==> r == v
    ensures v < lo ==> r == lo
    ensures hi < v ==> r == hi
  {
    Min(hi, Max(lo, v))
  }

  /**
   * The destination (p.x + dx, p.y + dy) can be looked up without the
   * source's index panicking: both coordinates are non-negative and the
   * index is inside the map. The check does not ask for x < 80, just as the
   * source does not.
   */
  predicate CanLookUp(tiles: seq<TileType>, p: Position, dx: int, dy: int) {
    0 <= p.x + dx && 0 <= p.y + dy && XyIdx(p.x + dx, p.y + dy) < |tiles|
  }

  /**
   * One player's move: rejected, leaving the position as it was, when the
   * unclamped destination tile is a Wall; otherwise committed clamped to the
   * grid, which is the destination itself when that lies on the grid.
   */
  function MovePosition(tiles: seq<TileType>, p: Position, dx: int, dy: int): (q: Position)
    requires CanLookUp(tiles, p, dx, dy)
    ensures tiles[XyIdx(p.x + dx, p.y + dy)] == Wall ==> q == p
    ensures tiles[XyIdx(p.x + dx, p.y + dy)] != Wall ==>
              q == Position(Clamp(p.x + dx, 0, Width - 1), Clamp(p.y + dy, 0, Height - 1))
    ensures tiles[XyIdx(p.x + dx, p.y + dy)] != Wall ==> InBounds(q.x, q.y)
    ensures tiles[XyIdx(p.x + dx, p.y + dy)] != Wall && InBounds(p.x + dx, p.y + dy) ==>
              q == Position(p.x + dx, p.y + dy)
  {
    if tiles[XyIdx(p.x + dx, p.y + dy)] != Wall then
      Position(Min(79, Max(0, p.x + dx)), Min(49, Max(0, p.y + dy)))
    else
      p
  }

  /** An entry of the position storage, with whether the entity is also a player. */
  datatype Entity = Entity(isPlayer: bool, pos: Position)

  function MoveEntity(tiles: seq<TileType>, e: Entity, dx: int, dy: int): (r: Entity)
    requires e.isPlayer ==> CanLookUp(tiles, e.pos, dx, dy)
    ensures r.isPlayer == e.isPlayer
    ensures !e.isPlayer ==> r == e
    ensures e.isPlayer ==> r.pos == MovePosition(tiles, e.pos, dx, dy)
  {
    if e.isPlayer then e.(pos := MovePosition(tiles, e.pos, dx, dy)) else e
  }

  /** Every player's destination can be looked up. */
  predicate LookUpsInRange(tiles: seq<TileType>, entities: seq<Entity>, dx: int, dy: int) {
    forall i :: 0 <= i < |entities| && entities[i].isPlayer ==> CanLookUp(tiles, entities[i].pos, dx, dy)
  }

  /** Strictly inside the border. */
  predicate Interior(p: Position) {
    1 <= p.x < Width - 1 && 1 <= p.y < Height - 1
  }

  predicate PlayersInterior(entities: seq<Entity>) {
    forall i :: 0 <= i < |entities| && entities[i].isPlayer ==> Interior(entities[i].pos)
  }

  /**
   * On a map with a walled border, a unit step from strictly inside can be
   * looked up and ends strictly inside: a step onto the border hits a Wall
   * and is rejected.
   */
  lemma InteriorPreserved(tiles: seq<TileType>, p: Position, d: (int, int))
    requires BorderWalled(tiles) && Interior(p) && IsUnitStep(d)
    ensures CanLookUp(tiles, p, d.0, d.1)
    ensures Interior(MovePosition(tiles, p, d.0, d.1))
  {
  }

  /**
   * The game's start: the generated map and one player at (40, 25). The
   * player stands strictly inside on a Floor tile.
   */
  lemma SpawnPlayable(rolls: seq<(int, int)>, tiles: seq<TileType>)
    requires RollsInRange(rolls) && IsSplatterMap(rolls, tiles)
    ensures BorderWalled(tiles)
    ensures PlayersInterior([Entity(true, Position(SpawnX, SpawnY))])
    ensures tiles[XyIdx(SpawnX, SpawnY)] == Floor
  {
  }

  /** The shared game state: the map and the position storage. */
  class World {
    var tiles: seq<TileType>
    var entities: seq<Entity>

    /** Border walled and every player strictly inside. */
    ghost predicate Playable()
      reads this
    {
      BorderWalled(tiles) && PlayersInterior(entities)
    }

    constructor (tiles: seq<TileType>, entities: seq<Entity>)
      ensures this.tiles == tiles && this.entities == entities
    {
      this.tiles := tiles;
      this.entities := entities;
    }

    /**
     * Applies one move by (dx, dy) to every player in the storage, in
     * storage order; the map and every non-player are left as they were.
     */
    method TryMovePlayer(dx: int, dy: int)
      requires LookUpsInRange(tiles, entities, dx, dy)
      modifies this
      ensures tiles == old(tiles)
      ensures |entities| == |old(entities)|
      ensures forall i :: 0 <= i < |entities| ==>
                entities[i] == MoveEntity(tiles, old(entities)[i], dx, dy)
      ensures old(Playable()) && IsUnitStep((dx, dy)) ==> Playable()
    {
      var i := 0;
      while i < |entities|
        invariant 0 <= i <= |entities| == |old(entities)|
        invariant tiles == old(tiles)
        invariant forall k :: 0 <= k < i ==> entities[k] == MoveEntity(tiles, old(entities)[k], dx, dy)
        invariant forall k :: i <= k < |entities| ==> entities[k] == old(entities)[k]
      {
        var e := entities[i];
        if e.isPlayer {
          var destinationIdx := XyIdx(e.pos.x + dx, e.pos.y + dy);
          if tiles[destinationIdx] != Wall {
            var pos := Position(Min(79, Max(0, e.pos.x + dx)), Min(49, Max(0, e.pos.y + dy)));
            entities := entities[i := e.(pos := pos)];
          }
        }
        i := i + 1;
      }
      if old(Playable()) && IsUnitStep((dx, dy)) {
        forall k | 0 <= k < |entities| && entities[k].isPlayer
          ensures Interior(entities[k].pos)
        {
          InteriorPreserved(tiles, old(entities)[k].pos, (dx, dy));
        }
      }
    }

    /**
     * Looks the key up in the alias table and moves the players by the step
     * it is bound to; no key, or a key bound to nothing, changes nothing.
     */
    method PlayerInput(key: Option<Key>)
      requires key.Some? && KeyDelta(key.value).Some? ==>
                 LookUpsInRange(tiles, entities, KeyDelta(key.value).value.0, KeyDelta(key.value).value.1)
      modifies this
      ensures tiles == old(tiles)
      ensures (key.None? || KeyDelta(key.value).None?) ==> entities == old(entities)
      ensures key.Some? && KeyDelta(key.value).Some? ==>
                |entities| == |old(entities)| &&
                forall i :: 0 <= i < |entities| ==>
                  entities[i] == MoveEntity(tiles, old(entities)[i],
                                            KeyDelta(key.value).value.0, KeyDelta(key.value).value.1)
      ensures old(Playable()) ==> Playable()
    {
      match key
      case None =>
      case Some(k) =>
        match k
        case Left | Numpad4 | A | H => TryMovePlayer(-1, 0);
        case Right | Numpad6 | D | L => TryMovePlayer(1, 0);
        case Up | Numpad8 | W | K => TryMovePlayer(0, -1);
        case Down | Numpad5 | S | J => TryMovePlayer(0, 1);
        case _ =>
    }
  }

  /**
   * On a walled-border map with every player strictly inside, every
   * player's destination for a unit step can be looked up.
   */
  lemma PlayableLooksUp(tiles: seq<TileType>, entities: seq<Entity>, d: (int, int))
    requires BorderWalled(tiles) && PlayersInterior(entities) && IsUnitStep(d)
    ensures LookUpsInRange(tiles, entities, d.0, d.1)
  {
    forall i | 0 <= i < |entities| && entities[i].isPlayer
      ensures CanLookUp(tiles, entities[i].pos, d.0, d.1)
    {
      InteriorPreserved(tiles, entities[i].pos, d);
    }
  }
}
