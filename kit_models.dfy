/** The content and state types of levelkit_text (levelkit_text/engine/models.py
    and the fields of `GameApp` in levelkit_text/engine/core.py).

    Optional string fields that the engine only ever tests for truthiness
    (`to`, `battle_id`, `set_flag`, `victory_to`, ...) are plain strings with ""
    standing for None: Python treats the two alike in every test the engine
    makes. */
module KitModels {
  import opened Common
  import opened KitRequirements
  import opened KitXp

  datatype Stats = Stats(hp: int, maxHp: int, mana: int, maxMana: int, stamina: int,
                         attack: int, defence: int, xp: int)

  /** The attribute names `hasattr(self.stats, name)` accepts. */
  predicate IsStat(name: string) {
    name in {"hp", "max_hp", "mana", "max_mana", "stamina", "attack", "defence", "xp"}
  }

  /** `getattr(self.stats, name, 0)`. */
  function StatValue(s: Stats, name: string): int {
    match name
    case "hp" => s.hp
    case "max_hp" => s.maxHp
    case "mana" => s.mana
    case "max_mana" => s.maxMana
    case "stamina" => s.stamina
    case "attack" => s.attack
    case "defence" => s.defence
    case "xp" => s.xp
    case _ => 0
  }

  /** `setattr(self.stats, name, v)` for a stat name; other names change nothing. */
  function WithStat(s: Stats, name: string, v: int): (r: Stats)
    ensures IsStat(name) ==> StatValue(r, name) == v
    ensures forall n | n != name :: StatValue(r, n) == StatValue(s, n)
  {
    match name
    case "hp" => s.(hp := v)
    case "max_hp" => s.(maxHp := v)
    case "mana" => s.(mana := v)
    case "max_mana" => s.(maxMana := v)
    case "stamina" => s.(stamina := v)
    case "attack" => s.(attack := v)
    case "defence" => s.(defence := v)
    case "xp" => s.(xp := v)
    case _ => s
  }

  /** An entry of `ITEM_DEFINITIONS` (base items merged with weapons).
      `weaponType` is "" when the key is absent; `effects` keeps the
      dictionary's insertion order. */
  datatype ItemDef = ItemDef(name: string, category: string, effects: seq<(string, int)>, weaponType: string)

  datatype Enemy = Enemy(id: string, name: string, hp: int, attack: int, defence: int, loot: seq<string>)

  /** One `{item, chance, unique, unique_key}` entry of a loot table; a missing
      chance is 1.0. */
  datatype LootEntry = LootEntry(item: string, chance: real, unique: bool, uniqueKey: string)

  /** `effects["roll_check"]`. */
  datatype RollCheck = RollCheck(pass: real, failText: string, successText: string,
                                 onFailAlert: Option<int>, hpDeltaOnFail: Option<int>)

  /** The declarative `effects` dictionary of an option. A field is None when
      the key is absent or holds a value of the wrong type (the source's
      `isinstance` tests); `equipItem` is the list the source builds from a
      string or a list of strings. */
  datatype Effects = Effects(
    equipItem: seq<string>,
    timerRooms: Option<int>,
    setFlags: map<string, int>,
    incFlags: map<string, int>,
    energyCost: Option<int>,
    alert: Option<int>,
    enemyStunned: Option<int>,
    rollCheck: Option<RollCheck>,
    hpDeltaOnFail: Option<int>,
    alertOnFail: Option<int>,
    onFailAlert: Option<int>)

  const NoEffects := Effects([], None, map[], map[], None, None, None, None, None, None, None)

  datatype OptionSpec = OptionSpec(
    caption: string,
    to: string,
    battleId: string,
    hint: string,
    requireExpr: Option<Req>,
    gainItems: seq<string>,
    requiresFlag: string,
    requiresNotFlag: string,
    setFlag: string,
    clearFlag: string,
    effects: Effects,
    lootTable: seq<LootEntry>,
    lootRolls: int,
    battleRepeatLimit: Option<int>,
    battleRepeatMessage: string,
    battleRepeatKey: string)

  datatype RoomSpec = RoomSpec(id: string, title: string, body: string, backgroundKey: string,
                               musicKey: string, enterSoundKey: string, options: seq<OptionSpec>)

  /** `kind` is a free string in the source; anything but the three known
      kinds makes the player hesitate. */
  datatype ActionKind = Attack | SkillCheck | Cast | OtherKind

  datatype BattleAction = BattleAction(
    kind: ActionKind,
    caption: string,
    bonus: int,
    variance: int,
    stat: string,
    gte: int,
    successDamage: int,
    failDamage: int,
    successHeal: int,
    failHeal: int,
    manaCost: int,
    requiresWeaponType: string,
    requiresWeaponId: string,
    ammoItem: string,
    ammoCost: int,
    hitChance: real,
    showIfUnavailable: bool)

  datatype BattleSpec = BattleSpec(
    id: string,
    title: string,
    enemy: Enemy,
    actions: seq<BattleAction>,
    victoryTo: string,
    defeatTo: string,
    victoryText: string,
    defeatText: string,
    lootTable: seq<LootEntry>,
    lootRolls: int)

  /** The constants of levelkit_text/game/defaults.py the engine reads.
      `damageVariance` and `defeatRoomId` are optional because the engine's
      `getattr` fallbacks for them differ from one call site to the next. */
  datatype Config = Config(
    startRoomId: string,
    defeatRoomId: Option<string>,
    damageVariance: Option<int>,
    critChance: real,
    critMultiplier: real,
    xpPerVictory: int,
    manaPerRoom: real,
    items: map<string, ItemDef>,
    curve: Option<Curve>,
    xpPerLevel: int)

  /** `self.current_battle` while a battle runs. */
  datatype Encounter = Encounter(spec: BattleSpec, optionTo: string, enemyHp: int, repeatKey: string)

  /** Everything the interpreter reads: content, configuration and the random
      source. */
  datatype World = World(rooms: map<string, RoomSpec>, battles: map<string, BattleSpec>, cfg: Config, rng: Rng)

  /** A snapshot of the mutable fields of `GameApp`, plus how many draws of
      each kind the random source has handed out and the room the pending
      "Continue" button leads to. */
  datatype GameState = GameState(
    stats: Stats,
    inventory: map<string, int>,
    flags: map<string, int>,
    timedFlags: map<string, int>,
    alertLevel: int,
    currentRoomId: string,
    currentBattle: Option<Encounter>,
    uniqueLootAwards: set<string>,
    equipment: map<string, Option<string>>,
    battleRepeatTracker: map<string, int>,
    manaRegenReserve: real,
    pendingRoom: string,
    drawsUsed: nat,
    rollsUsed: nat)

  /** What every operation keeps: the alert level is never negative, every
      inventory count and timed-flag counter is at least 1, the regeneration
      reserve is a fraction in [0, 1), and the two weapon slots exist. */
  ghost predicate Inv(s: GameState) {
    && s.alertLevel >= 0
    && (forall k | k in s.inventory :: s.inventory[k] >= 1)
    && (forall k | k in s.timedFlags :: s.timedFlags[k] >= 1)
    && 0.0 <= s.manaRegenReserve < 1.0
    && s.equipment.Keys == {"melee", "ranged"}
  }
}
