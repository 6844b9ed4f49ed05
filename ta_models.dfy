/** The content and state types of text_adventure (text_adventure/engine/models.py,
    text_adventure/game/defaults.py and the fields of `GameApp` in
    text_adventure/engine/core.py).

    As in levelkit_text, the optional string fields (`to`, `battle_id`,
    `background_key`, `victory_to`, ...) are plain strings with "" standing
    for None: every test the engine and the validator make on them is a
    truthiness test. */
module TaModels {
  import opened Common

  datatype Stats = Stats(hp: int, maxHp: int, mana: int, stamina: int, attack: int, defence: int, xp: int)

  /** The attribute names `hasattr(self.stats, name)` accepts. */
  predicate IsStat(name: string) {
    name in {"hp", "max_hp", "mana", "stamina", "attack", "defence", "xp"}
  }

  /** `getattr(self.stats, name, 0)`. */
  function StatValue(s: Stats, name: string): int {
    match name
    case "hp" => s.hp
    case "max_hp" => s.maxHp
    case "mana" => s.mana
    case "stamina" => s.stamina
    case "attack" => s.attack
    case "defence" => s.defence
    case "xp" => s.xp
    case _ => 0
  }

  /** `setattr(self.stats, name, v)` for a stat name; other names change nothing. */
  function WithStat(s: Stats, name: string, v: int): (r: Stats)
    ensures IsStat(name) ==> StatValue(r, name) == v
    ensures forall n | n != name :: StatValue(r, n) == StatValue(s, n)
    ensures !IsStat(name) ==> r == s
  {
    match name
    case "hp" => s.(hp := v)
    case "max_hp" => s.(maxHp := v)
    case "mana" => s.(mana := v)
    case "stamina" => s.(stamina := v)
    case "attack" => s.(attack := v)
    case "defence" => s.(defence := v)
    case "xp" => s.(xp := v)
    case _ => s
  }

  /** An entry of `DEFAULT_ITEM_EFFECTS`; `effects` keeps the dictionary's
      insertion order. */
  datatype ItemDef = ItemDef(name: string, description: string, effects: seq<(string, int)>)

  datatype Enemy = Enemy(id: string, name: string, hp: int, attack: int, defence: int, loot: seq<string>)

  datatype OptionSpec = OptionSpec(caption: string, to: string, battleId: string, hint: string)

  datatype RoomSpec = RoomSpec(id: string, title: string, body: string, backgroundKey: string,
                               musicKey: string, options: seq<OptionSpec>)

  /** `kind` is declared as one of three literals, but the engine has a
      branch for any other value. */
  datatype ActionKind = Attack | SkillCheck | Cast | Other(name: string)

  /** `stat` is "" and `gte` is 0 when unset: the engine reads them as
      `action.stat or ""` and `action.gte or 0`. */
  datatype BattleAction = BattleAction(kind: ActionKind, caption: string, bonus: int, variance: int,
                                       stat: string, gte: int, successDamage: int, failDamage: int,
                                       successHeal: int, failHeal: int, manaCost: int)

  datatype BattleSpec = BattleSpec(id: string, title: string, enemy: Enemy, actions: seq<BattleAction>,
                                   victoryTo: string, defeatTo: string, victoryText: string, defeatText: string)

  /** The constants the engine reads from its defaults module. The two the
      engine reads with `getattr` and different fallbacks at different call
      sites are None when the module does not define them. */
  datatype Config = Config(
    startRoomId: string,
    startingStats: Stats,
    damageVariance: Option<int>,
    critChance: real,
    critMultiplier: real,
    xpPerVictory: int,
    manaPerRoom: int,
    defeatRoomId: Option<string>)

  /** The rooms, battles and defaults a `GameApp` is built with. */
  datatype World = World(rooms: map<string, RoomSpec>, battles: map<string, BattleSpec>, cfg: Config)

  /** `current_battle`: the battle, the room the option that started it
      pointed at, and the enemy's remaining hit points. */
  datatype Battle = Battle(spec: BattleSpec, optionTo: string, enemyHp: int)

  /** The fields of `GameApp` the engine changes. `pending` is the room a
      `root.after` callback will enter, when one is scheduled. */
  datatype GameState = GameState(
    stats: Stats,
    inventory: map<string, int>,
    flags: map<string, bool>,
    currentRoomId: string,
    currentBattle: Option<Battle>,
    pending: Option<string>)

  /** The random values one battle action may use: the player's damage
      roll, the critical-hit draw of `random.random()` and the enemy's
      damage roll. `random.randint(0, n)` is modelled as `roll % (n + 1)`. */
  datatype Dice = Dice(playerRoll: int, critDraw: real, enemyRoll: int)

  function DieRoll(roll: int, hi: nat): (r: nat)
    ensures r <= hi
  {
    roll % (hi + 1)
  }
}
