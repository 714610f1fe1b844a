/** The level.dat record of a world: its settings, written as an NBT
    document whose root holds a single "Data" compound. */
module Levels {
  import opened Bytes
  import opened Wrappers
  import opened Tags
  import opened Compounds

  // ---------------------------------------------------------------------
  // Keys and constants

  const VersionKey: Name := [0x76, 0x65, 0x72, 0x73, 0x69, 0x6F, 0x6E] // "version"
  const InitializedKey: Name := [0x69, 0x6E, 0x69, 0x74, 0x69, 0x61, 0x6C, 0x69, 0x7A, 0x65, 0x64] // "initialized"
  const LevelNameKey: Name := [0x4C, 0x65, 0x76, 0x65, 0x6C, 0x4E, 0x61, 0x6D, 0x65] // "LevelName"
  const GeneratorNameKey: Name :=
    [0x67, 0x65, 0x6E, 0x65, 0x72, 0x61, 0x74, 0x6F, 0x72, 0x4E, 0x61, 0x6D, 0x65] // "generatorName"
  const GeneratorVersionKey: Name :=
    [0x67, 0x65, 0x6E, 0x65, 0x72, 0x61, 0x74, 0x6F, 0x72, 0x56, 0x65, 0x72, 0x73, 0x69, 0x6F, 0x6E] // "generatorVersion"
  const GeneratorOptionsKey: Name :=
    [0x67, 0x65, 0x6E, 0x65, 0x72, 0x61, 0x74, 0x6F, 0x72, 0x4F, 0x70, 0x74, 0x69, 0x6F, 0x6E, 0x73] // "generatorOptions"
  const RandomSeedKey: Name := [0x52, 0x61, 0x6E, 0x64, 0x6F, 0x6D, 0x53, 0x65, 0x65, 0x64] // "RandomSeed"
  const MapFeaturesKey: Name := [0x4D, 0x61, 0x70, 0x46, 0x65, 0x61, 0x74, 0x75, 0x72, 0x65, 0x73] // "MapFeatures"
  const LastPlayedKey: Name := [0x4C, 0x61, 0x73, 0x74, 0x50, 0x6C, 0x61, 0x79, 0x65, 0x64] // "LastPlayed"
  const SizeOnDiskKey: Name := [0x53, 0x69, 0x7A, 0x65, 0x4F, 0x6E, 0x44, 0x69, 0x73, 0x6B] // "SizeOnDisk"
  const AllowCommandsKey: Name :=
    [0x61, 0x6C, 0x6C, 0x6F, 0x77, 0x43, 0x6F, 0x6D, 0x6D, 0x61, 0x6E, 0x64, 0x73] // "allowCommands"
  const HardcoreKey: Name := [0x68, 0x61, 0x72, 0x64, 0x63, 0x6F, 0x72, 0x65] // "hardcore"
  const GameTypeKey: Name := [0x47, 0x61, 0x6D, 0x65, 0x54, 0x79, 0x70, 0x65] // "GameType"
  const TimeKey: Name := [0x54, 0x69, 0x6D, 0x65] // "Time"
  const DayTimeKey: Name := [0x44, 0x61, 0x79, 0x54, 0x69, 0x6D, 0x65] // "DayTime"
  const SpawnXKey: Name := [0x53, 0x70, 0x61, 0x77, 0x6E, 0x58] // "SpawnX"
  const SpawnYKey: Name := [0x53, 0x70, 0x61, 0x77, 0x6E, 0x59] // "SpawnY"
  const SpawnZKey: Name := [0x53, 0x70, 0x61, 0x77, 0x6E, 0x5A] // "SpawnZ"
  const RainingKey: Name := [0x72, 0x61, 0x69, 0x6E, 0x69, 0x6E, 0x67] // "raining"
  const RainTimeKey: Name := [0x72, 0x61, 0x69, 0x6E, 0x54, 0x69, 0x6D, 0x65] // "rainTime"
  const ThunderingKey: Name := [0x74, 0x68, 0x75, 0x6E, 0x64, 0x65, 0x72, 0x69, 0x6E, 0x67] // "thundering"
  const ThunderTimeKey: Name := [0x74, 0x68, 0x75, 0x6E, 0x64, 0x65, 0x72, 0x54, 0x69, 0x6D, 0x65] // "thunderTime"
  const GameRulesKey: Name := [0x47, 0x61, 0x6D, 0x65, 0x52, 0x75, 0x6C, 0x65, 0x73] // "GameRules"
  const DataKey: Name := [0x44, 0x61, 0x74, 0x61] // "Data"

  /** The format version every document carries. */
  const FormatVersion: int32 := 19133
  /** `Integer.MAX_VALUE`. */
  const MaxInt: int32 := 0x7FFF_FFFF

  const TrueText: Name := [0x74, 0x72, 0x75, 0x65] // "true"
  const FalseText: Name := [0x66, 0x61, 0x6C, 0x73, 0x65] // "false"

  // ---------------------------------------------------------------------
  // The record

  /** The fields of `Level`; strings are their encoded names, and the game
      rules a map from rule name to value. */
  datatype Level = Level(
    rules: map<Name, Name>,
    initialized: bool,
    name: Name,
    generatorName: Name,
    generatorVersion: int32,
    generatorOptions: Name,
    seed: int64,
    mapFeatures: bool,
    lastPlayed: int64,
    size: int64,
    allowCommands: bool,
    hardcore: bool,
    gameType: int32,
    time: int64,
    dayTime: int64,
    spawnX: int32,
    spawnY: int32,
    spawnZ: int32,
    raining: bool,
    rainTime: int32,
    thundering: bool,
    thunderTime: int32)

  /** A new `Level`: the field initialisers. */
  function Default(): Level
  {
    Level(map[], true,
          [0x43, 0x6F, 0x6C, 0x75, 0x6D, 0x62, 0x75, 0x73], // "Columbus"
          [0x66, 0x6C, 0x61, 0x74], // "flat"
          0,
          [0x30], // "0"
          0, false, 0, 0, false, false, 1, 6000, 6000, 0, 0, 0, false, MaxInt, false, MaxInt)
  }

  /** `(byte) (b ? 1 : 0)`. */
  function Flag(b: bool): (r: int8)
    ensures r == 0 || r == 1
    ensures r == 1 <==> b
  {
    if b then 1 else 0
  }

  // ---------------------------------------------------------------------
  // Game rules

  /** `setRule(name, value)`: the map's `put`, replacing an earlier value. */
  function SetRule(l: Level, name: Name, value: Name): (r: Level)
    ensures name in r.rules && r.rules[name] == value
    ensures forall n | n != name :: (n in r.rules <==> n in l.rules)
    ensures forall n | n != name && n in l.rules :: r.rules[n] == l.rules[n]
    ensures r.(rules := l.rules) == l
  {
    l.(rules := l.rules[name := value])
  }

  /** `setRule(name, boolean)`: the rule set to `String.valueOf(value)`. */
  function SetRuleFlag(l: Level, name: Name, value: bool): (r: Level)
    ensures r == SetRule(l, name, if value then TrueText else FalseText)
    ensures r.rules[name] == (if value then TrueText else FalseText)
  {
    SetRule(l, name, if value then TrueText else FalseText)
  }

  /** Every name of `order` is a rule and every rule is named by it: an
      iteration order of the rule map's entries. */
  predicate Enumerates(order: seq<Name>, rules: map<Name, Name>)
  {
    (forall i | 0 <= i < |order| :: order[i] in rules) &&
    (forall n | n in rules :: n in order)
  }

  /** The loop filling the "GameRules" compound: one string tag per rule,
      added in the iteration order `order`. */
  function AddRules(e: Entries, rules: map<Name, Name>, order: seq<Name>): (r: Entries)
    requires forall i | 0 <= i < |order| :: order[i] in rules
    ensures forall n | n in order :: Lookup(r, n) == Some(TagString(rules[n]))
    ensures forall n | n !in order :: Lookup(r, n) == Lookup(e, n)
    decreases |order|
  {
    if |order| == 0 then e
    else
      var e' := Put(e, order[0], TagString(rules[order[0]]));
      var r := AddRules(e', rules, order[1..]);
      assert forall n | n in order :: n == order[0] || n in order[1..];
      r
  }

  // ---------------------------------------------------------------------
  // Serialisation

  /** The number of entries `serialize` adds to "Data". */
  const FieldCount: nat := 23

  /** The `i`-th `addTag` call of `serialize` on "Data", given the content
      of "GameRules". */
  function Field(l: Level, rules: Entries, i: nat): NamedTag
    requires i < FieldCount
  {
    match i
    case 0 => NamedTag(VersionKey, TagInt(FormatVersion))
    case 1 => NamedTag(InitializedKey, TagByte(Flag(l.initialized)))
    case 2 => NamedTag(LevelNameKey, TagString(l.name))
    case 3 => NamedTag(GeneratorNameKey, TagString(l.generatorName))
    case 4 => NamedTag(GeneratorVersionKey, TagInt(l.generatorVersion))
    case 5 => NamedTag(GeneratorOptionsKey, TagString(l.generatorOptions))
    case 6 => NamedTag(RandomSeedKey, TagLong(l.seed))
    case 7 => NamedTag(MapFeaturesKey, TagByte(Flag(l.mapFeatures)))
    case 8 => NamedTag(LastPlayedKey, TagLong(l.lastPlayed))
    case 9 => NamedTag(SizeOnDiskKey, TagLong(l.size))
    case 10 => NamedTag(AllowCommandsKey, TagByte(Flag(l.allowCommands)))
    case 11 => NamedTag(HardcoreKey, TagByte(Flag(l.hardcore)))
    case 12 => NamedTag(GameTypeKey, TagInt(l.gameType))
    case 13 => NamedTag(TimeKey, TagLong(l.time))
    case 14 => NamedTag(DayTimeKey, TagLong(l.dayTime))
    case 15 => NamedTag(SpawnXKey, TagInt(l.spawnX))
    case 16 => NamedTag(SpawnYKey, TagInt(l.spawnY))
    case 17 => NamedTag(SpawnZKey, TagInt(l.spawnZ))
    case 18 => NamedTag(RainingKey, TagByte(Flag(l.raining)))
    case 19 => NamedTag(RainTimeKey, TagInt(l.rainTime))
    case 20 => NamedTag(ThunderingKey, TagByte(Flag(l.thundering)))
    case 21 => NamedTag(ThunderTimeKey, TagInt(l.thunderTime))
    case _ => NamedTag(GameRulesKey, TagCompound(rules))
  }

  /** The entries `serialize` adds to "Data", in the order it adds them. */
  function Fields(l: Level, rules: Entries): (r: Entries)
    ensures |r| == FieldCount
    ensures forall i | 0 <= i < FieldCount :: r[i] == Field(l, rules, i)
  {
    seq(FieldCount, i requires 0 <= i < FieldCount => Field(l, rules, i))
  }

  /** The "GameRules" compound of `serialize`. */
  function GameRules(l: Level, order: seq<Name>): Entries
    requires Enumerates(order, l.rules)
  {
    AddRules([], l.rules, order)
  }

  /** The `addTag` calls of `serialize` on a new compound, given the
      content of "GameRules". */
  function DataWith(l: Level, rules: Entries): Entries
  {
    PutAll([], Fields(l, rules))
  }

  /** The "Data" compound, with the rules added in iteration order `order`.
      The rule compound is added before it is filled; as the same object
      is filled afterwards, it is added here filled. */
  function Data(l: Level, order: seq<Name>): Entries
    requires Enumerates(order, l.rules)
  {
    DataWith(l, GameRules(l, order))
  }

  /** `serialize`: an unnamed root holding only "Data", which holds the
      fields exactly as they are added, none replacing another. */
  function Serialize(l: Level, order: seq<Name>): (r: NamedTag)
    requires Enumerates(order, l.rules)
    ensures r.name == [] && r.value.TagCompound? && Keys(r.value.entries) == {DataKey}
    ensures Lookup(r.value.entries, DataKey) == Some(TagCompound(Fields(l, GameRules(l, order))))
  {
    DataInOrder(l, GameRules(l, order));
    NamedTag([], TagCompound([NamedTag(DataKey, TagCompound(Data(l, order)))]))
  }

  // ---------------------------------------------------------------------
  // Reading the document back

  /** Length, first and last byte of a name packed into one number: keys
      with different codes are different. */
  function Code(n: Name): int
  {
    if |n| == 0 then 0 else |n| * 0x10000 + n[0] as int * 0x100 + n[|n| - 1] as int
  }

  lemma IdentityCodes()
    ensures Code(VersionKey) == 0x7766e
    ensures Code(InitializedKey) == 0xb6964
    ensures Code(LevelNameKey) == 0x94c65
    ensures Code(GeneratorNameKey) == 0xd6765
    ensures Code(GeneratorVersionKey) == 0x10676e
    ensures Code(GeneratorOptionsKey) == 0x106773
    ensures Code(RandomSeedKey) == 0xa5264
    ensures Code(MapFeaturesKey) == 0xb4d73
  {
  }

  lemma ProgressCodes()
    ensures Code(LastPlayedKey) == 0xa4c64
    ensures Code(SizeOnDiskKey) == 0xa536b
    ensures Code(AllowCommandsKey) == 0xd6173
    ensures Code(HardcoreKey) == 0x86865
    ensures Code(GameTypeKey) == 0x84765
    ensures Code(TimeKey) == 0x45465
    ensures Code(DayTimeKey) == 0x74465
  {
  }

  lemma WeatherCodes()
    ensures Code(SpawnXKey) == 0x65358
    ensures Code(SpawnYKey) == 0x65359
    ensures Code(SpawnZKey) == 0x6535a
    ensures Code(RainingKey) == 0x77267
    ensures Code(RainTimeKey) == 0x87265
    ensures Code(ThunderingKey) == 0xa7467
    ensures Code(ThunderTimeKey) == 0xb7465
    ensures Code(GameRulesKey) == 0x94773
  {
  }

  /** The position among the entries of "Data" of the key with code `c`. */
  function Rank(c: int): int
  {
    if c == 0x7766e then 0
    else if c == 0xb6964 then 1
    else if c == 0x94c65 then 2
    else if c == 0xd6765 then 3
    else if c == 0x10676e then 4
    else if c == 0x106773 then 5
    else if c == 0xa5264 then 6
    else if c == 0xb4d73 then 7
    else if c == 0xa4c64 then 8
    else if c == 0xa536b then 9
    else if c == 0xd6173 then 10
    else if c == 0x86865 then 11
    else if c == 0x84765 then 12
    else if c == 0x45465 then 13
    else if c == 0x74465 then 14
    else if c == 0x65358 then 15
    else if c == 0x65359 then 16
    else if c == 0x6535a then 17
    else if c == 0x77267 then 18
    else if c == 0x87265 then 19
    else if c == 0xa7467 then 20
    else if c == 0xb7465 then 21
    else if c == 0x94773 then 22
    else -1
  }

  lemma IdentityRanked(l: Level, rules: Entries)
    ensures forall i | 0 <= i < 8 :: Rank(Code(Field(l, rules, i).name)) == i
  {
    IdentityCodes();
  }

  lemma ProgressRanked(l: Level, rules: Entries)
    ensures forall i | 8 <= i < 15 :: Rank(Code(Field(l, rules, i).name)) == i
  {
    ProgressCodes();
  }

  lemma WeatherRanked(l: Level, rules: Entries)
    ensures forall i | 15 <= i < FieldCount :: Rank(Code(Field(l, rules, i).name)) == i
  {
    WeatherCodes();
  }

  /** No key of "Data" is added twice. */
  lemma KeysDistinct(l: Level, rules: Entries)
    ensures forall i, j | 0 <= i < j < FieldCount :: Field(l, rules, i).name != Field(l, rules, j).name
  {
    IdentityRanked(l, rules);
    ProgressRanked(l, rules);
    WeatherRanked(l, rules);
  }

  /** "Data" holds exactly the added entries, in the order `serialize` adds
      them: no key is added twice, so no `addTag` replaces another. */
  lemma DataInOrder(l: Level, rules: Entries)
    ensures DataWith(l, rules) == Fields(l, rules)
  {
    var fs := Fields(l, rules);
    FieldsUnique(l, rules);
    assert [] + fs == fs;
    PutAllFresh([], fs);
  }

  lemma FieldsUnique(l: Level, rules: Entries)
    ensures UniqueNames(Fields(l, rules))
  {
    var fs := Fields(l, rules);
    KeysDistinct(l, rules);
    UniqueNamesPairwise(fs);
  }

  /** Each key of "Data" reads back the value added under it. */
  lemma DataLookup(l: Level, rules: Entries)
    ensures forall i | 0 <= i < FieldCount ::
      Lookup(DataWith(l, rules), Field(l, rules, i).name) == Some(Field(l, rules, i).value)
  {
    var fs := Fields(l, rules);
    DataInOrder(l, rules);
    FieldsUnique(l, rules);
    forall i | 0 <= i < FieldCount
      ensures Lookup(fs, fs[i].name) == Some(fs[i].value)
    {
      LookupEntry(fs, i);
    }
  }

  /** The format version is 19133, and the initialized and map-features
      flags are stored as the byte 1 when set and 0 when not. */
  lemma IdentityFlags(l: Level, rules: Entries)
    ensures var d := DataWith(l, rules);
      Lookup(d, VersionKey) == Some(TagInt(19133)) &&
      Lookup(d, InitializedKey) == Some(TagByte(if l.initialized then 1 else 0)) &&
      Lookup(d, MapFeaturesKey) == Some(TagByte(if l.mapFeatures then 1 else 0))
  {
    DataLookup(l, rules);
    assert Field(l, rules, 0).name == VersionKey;
    assert Field(l, rules, 1).name == InitializedKey;
    assert Field(l, rules, 7).name == MapFeaturesKey;
  }

  /** The level and generator names are stored as strings. */
  lemma NamesStored(l: Level, rules: Entries)
    ensures var d := DataWith(l, rules);
      Lookup(d, LevelNameKey) == Some(TagString(l.name)) &&
      Lookup(d, GeneratorNameKey) == Some(TagString(l.generatorName))
  {
    DataLookup(l, rules);
    assert Field(l, rules, 2).name == LevelNameKey;
    assert Field(l, rules, 3).name == GeneratorNameKey;
  }

  /** The game mode and the time are stored as an int and a long. */
  lemma ClockStored(l: Level, rules: Entries)
    ensures var d := DataWith(l, rules);
      Lookup(d, GameTypeKey) == Some(TagInt(l.gameType)) &&
      Lookup(d, TimeKey) == Some(TagLong(l.time))
  {
    DataLookup(l, rules);
    assert Field(l, rules, 12).name == GameTypeKey;
    assert Field(l, rules, 13).name == TimeKey;
  }

  /** The rain and thunder timers are stored as ints. */
  lemma TimersStored(l: Level, rules: Entries)
    ensures var d := DataWith(l, rules);
      Lookup(d, RainTimeKey) == Some(TagInt(l.rainTime)) &&
      Lookup(d, ThunderTimeKey) == Some(TagInt(l.thunderTime))
  {
    DataLookup(l, rules);
    assert Field(l, rules, 19).name == RainTimeKey;
    assert Field(l, rules, 21).name == ThunderTimeKey;
  }

  /** The cheat and hardcore flags are stored as the byte 1 when set and 0
      when not. */
  lemma ModeFlags(l: Level, rules: Entries)
    ensures var d := DataWith(l, rules);
      Lookup(d, AllowCommandsKey) == Some(TagByte(if l.allowCommands then 1 else 0)) &&
      Lookup(d, HardcoreKey) == Some(TagByte(if l.hardcore then 1 else 0))
  {
    DataLookup(l, rules);
    assert Field(l, rules, 10).name == AllowCommandsKey;
    assert Field(l, rules, 11).name == HardcoreKey;
  }

  /** The rain and thunder flags are stored as the byte 1 when set and 0
      when not. */
  lemma WeatherFlags(l: Level, rules: Entries)
    ensures var d := DataWith(l, rules);
      Lookup(d, RainingKey) == Some(TagByte(if l.raining then 1 else 0)) &&
      Lookup(d, ThunderingKey) == Some(TagByte(if l.thundering then 1 else 0))
  {
    DataLookup(l, rules);
    assert Field(l, rules, 18).name == RainingKey;
    assert Field(l, rules, 20).name == ThunderingKey;
  }

  /** "GameRules" is the last entry of "Data". */
  lemma RulesStored(l: Level, rules: Entries)
    ensures Lookup(DataWith(l, rules), GameRulesKey) == Some(TagCompound(rules))
  {
    DataLookup(l, rules);
    assert Field(l, rules, 22).name == GameRulesKey;
  }

  /** "GameRules" holds one string tag per rule, whatever the iteration
      order. */
  lemma RulesLookup(l: Level, order: seq<Name>)
    requires Enumerates(order, l.rules)
    ensures var g := GameRules(l, order);
      Keys(g) == l.rules.Keys &&
      forall n :: Lookup(g, n) == if n in l.rules then Some(TagString(l.rules[n])) else None
  {
    var g := GameRules(l, order);
    forall n
      ensures Lookup(g, n) == if n in l.rules then Some(TagString(l.rules[n])) else None
    {
      if n in order {
        var i :| 0 <= i < |order| && order[i] == n;
      }
    }
    assert forall n :: n in Keys(g) <==> Lookup(g, n).Some?;
  }

  /** The document's root is unnamed and holds "Data", in which every
      field is found under its key. */
  lemma DocumentFields(l: Level, order: seq<Name>)
    requires Enumerates(order, l.rules)
    ensures var root := Serialize(l, order);
      var g := GameRules(l, order);
      root.name == [] && root.value.TagCompound? &&
      forall i | 0 <= i < FieldCount ::
        GetTagDeep(root.value.entries, [DataKey, Field(l, g, i).name]) == Ok(Field(l, g, i).value)
  {
    var es := Serialize(l, order).value.entries;
    var g := GameRules(l, order);
    DataLookup(l, g);
    forall i | 0 <= i < FieldCount
      ensures GetTagDeep(es, [DataKey, Field(l, g, i).name]) == Ok(Field(l, g, i).value)
    {
      assert Lookup(es, DataKey) == Some(TagCompound(Data(l, order)));
      assert [DataKey, Field(l, g, i).name][1..] == [Field(l, g, i).name];
    }
  }

  /** A rule is found in the document under "Data", "GameRules" and its
      name, holding its value as a string; a name that is not a rule is
      absent. */
  lemma RuleRead(l: Level, order: seq<Name>, n: Name)
    requires Enumerates(order, l.rules)
    ensures GetTagDeep(Serialize(l, order).value.entries, [DataKey, GameRulesKey, n]) ==
      if n in l.rules then Ok(TagString(l.rules[n])) else Err(AbsentValue(n))
  {
    var es := Serialize(l, order).value.entries;
    var g := GameRules(l, order);
    RulesStored(l, g);
    RulesLookup(l, order);
    assert Lookup(es, DataKey) == Some(TagCompound(Data(l, order)));
    var path := [DataKey, GameRulesKey, n];
    assert path[1..] == [GameRulesKey, n] && path[1..][1..] == [n];
  }

  /** After `setRule(name, value)` the document holds `value` for the
      rule and the same as before for every other name, whatever the
      iteration orders. */
  lemma SetRuleRead(l: Level, order: seq<Name>, name: Name, value: Name, order': seq<Name>)
    requires Enumerates(order, l.rules)
    requires Enumerates(order', SetRule(l, name, value).rules)
    ensures var es := Serialize(SetRule(l, name, value), order').value.entries;
      GetTagDeep(es, [DataKey, GameRulesKey, name]) == Ok(TagString(value)) &&
      forall n | n != name :: GetTagDeep(es, [DataKey, GameRulesKey, n]) ==
        GetTagDeep(Serialize(l, order).value.entries, [DataKey, GameRulesKey, n])
  {
    var l' := SetRule(l, name, value);
    RuleRead(l', order', name);
    forall n | n != name
      ensures GetTagDeep(Serialize(l', order').value.entries, [DataKey, GameRulesKey, n]) ==
        GetTagDeep(Serialize(l, order).value.entries, [DataKey, GameRulesKey, n])
    {
      RuleRead(l', order', n);
      RuleRead(l, order, n);
    }
  }

  /** After `setRule(name, boolean)` the document holds "true" or "false"
      for the rule. */
  lemma SetRuleFlagRead(l: Level, name: Name, value: bool, order: seq<Name>)
    requires Enumerates(order, SetRuleFlag(l, name, value).rules)
    ensures GetTagDeep(Serialize(SetRuleFlag(l, name, value), order).value.entries, [DataKey, GameRulesKey, name]) ==
      Ok(TagString(if value then TrueText else FalseText))
  {
    RuleRead(SetRuleFlag(l, name, value), order, name);
  }

  /** A new level has no game rules: it is written with an empty
      "GameRules". */
  lemma DefaultRules()
    ensures Enumerates([], Default().rules)
    ensures Lookup(Data(Default(), []), GameRulesKey) == Some(TagCompound([]))
  {
    assert GameRules(Default(), []) == [];
    RulesStored(Default(), []);
  }

  /** A new level is written initialized, named "Columbus" and generated
      "flat", in game mode 1 at time 6000, and with both weather timers at
      `Integer.MAX_VALUE`. */
  lemma DefaultStored()
    ensures var d := DataWith(Default(), []);
      Lookup(d, InitializedKey) == Some(TagByte(1)) &&
      Lookup(d, LevelNameKey) == Some(TagString([0x43, 0x6F, 0x6C, 0x75, 0x6D, 0x62, 0x75, 0x73])) &&
      Lookup(d, GeneratorNameKey) == Some(TagString([0x66, 0x6C, 0x61, 0x74])) &&
      Lookup(d, GameTypeKey) == Some(TagInt(1)) &&
      Lookup(d, TimeKey) == Some(TagLong(6000)) &&
      Lookup(d, RainTimeKey) == Some(TagInt(0x7FFF_FFFF)) &&
      Lookup(d, ThunderTimeKey) == Some(TagInt(0x7FFF_FFFF))
  {
    var l := Default();
    IdentityFlags(l, []);
    NamesStored(l, []);
    ClockStored(l, []);
    TimersStored(l, []);
  }
}
