/**
 * Kill-source lookup (src/classes/Helper.ts): classifies the name on either
 * side of a "was killed by" console line through a constant table, with a
 * numeric fallback (an NPC "Scientist") and a player fallback.
 */
module KillInfo {
  import opened Text

  datatype KillPlayerType = Player | Npc | Entity | Natural

  datatype KillPlayer = KillPlayer(id: string, kind: KillPlayerType, name: string)

  datatype KillEntry = KillEntry(id: string, name: string, kind: KillPlayerType)

  /** The `killData` table, in source order. */
  const KillData: seq<KillEntry> := [
    KillEntry("thirst", "Thirst", Natural),
    KillEntry("hunger", "Hunger", Natural),
    KillEntry("cold", "Cold", Natural),
    KillEntry("bleeding", "Bleeding", Natural),
    KillEntry("fall", "Fall", Natural),
    KillEntry("drowned", "Drowned", Natural),
    KillEntry("radiation", "Radiation", Natural),
    KillEntry("pee pee 9000", "Pee Pee 9000", Natural),
    KillEntry("bear", "Bear", Npc),
    KillEntry("boar", "Boar", Npc),
    KillEntry("wolf", "Wolf", Npc),
    KillEntry("patrolhelicopter", "Patrol Helicopter", Npc),
    KillEntry("bradleyapc", "Bradley APC", Npc),
    KillEntry("guntrap.deployed", "Shotgun Trap", Entity),
    KillEntry("autoturret_deployed", "Auto Turret", Entity),
    KillEntry("flameturret.deployed", "Flame Turret", Entity),
    KillEntry("teslacoil.deployed", "Tesla Coil", Entity),
    KillEntry("campfire", "Campfire", Entity),
    KillEntry("barricade.wood", "Wooden Barricade", Entity),
    KillEntry("barricade.metal", "Metal Barricade", Entity),
    KillEntry("barricade.woodwire", "Wooden Barricade", Entity),
    KillEntry("spikes.floor", "Floor Spikes", Entity),
    KillEntry("wall.external.high.stone", "High External Stone Wall", Entity),
    KillEntry("wall.external.high", "High External Wooden Wall", Entity),
    KillEntry("gates.external.high.wood", "High External Wooden Gate", Entity),
    KillEntry("gates.external.high.stone", "High External Stone Gate", Entity),
    KillEntry("sentry.bandit.static", "Bandit Sentry", Entity),
    KillEntry("sentry.scientist.static", "Scientist Sentry", Entity),
    KillEntry("landmine", "Landmine", Entity),
    KillEntry("rocket_crane_lift_trigger", "Crane Lift", Entity),
    KillEntry("cactus", "Cactus", Entity),
    KillEntry("rowboat", "Rowboat", Entity),
    KillEntry("fireball", "Fireball", Entity),
    KillEntry("oilfireballsmall", "Small Oil Fire", Entity),
    KillEntry("napalm", "Napalm", Entity),
    KillEntry("cargoshipdynamic1", "Cargo Ship", Entity),
    KillEntry("beartrap", "Bear Trap", Entity)
  ]

  // ----- JavaScript `Number(s)` acceptance (`!isNaN(Number(s))`) -----

  predicate IsHexDigit(c: char)
  {
    IsDigit(c) || ('a' <= c <= 'f') || ('A' <= c <= 'F')
  }

  predicate AllChars(s: string, radix: nat)
  {
    forall k :: 0 <= k < |s| ==>
      if radix == 16 then IsHexDigit(s[k])
      else if radix == 8 then '0' <= s[k] <= '7'
      else '0' <= s[k] <= '1'
  }

  /** `0x…`, `0o…`, `0b…` (no sign allowed). */
  predicate IsNonDecimalLiteral(t: string)
  {
    && |t| >= 3 && t[0] == '0'
    && ((t[1] in "xX" && AllChars(t[2..], 16))
        || (t[1] in "oO" && AllChars(t[2..], 8))
        || (t[1] in "bB" && AllChars(t[2..], 2)))
  }

  /** `""` or `e`/`E`, an optional sign and at least one digit. */
  predicate IsExponentPart(t: string)
  {
    t == [] ||
    (|t| >= 2 && t[0] in "eE" &&
      var d := if t[1] in "+-" then t[2..] else t[1..];
      d != [] && AllIn(Digit, d))
  }

  /** Digits, an optional `.` with digits, at least one digit in all, then an exponent part. */
  predicate IsUnsignedDecimalLiteral(t: string)
  {
    t == "Infinity" ||
    (var e1 := RunEnd(t, 0, Digit);
     if e1 < |t| && t[e1] == '.' then
       var e2 := RunEnd(t, e1 + 1, Digit);
       (e1 > 0 || e2 > e1 + 1) && IsExponentPart(t[e2..])
     else
       e1 > 0 && IsExponentPart(t[e1..]))
  }

  predicate IsDecimalLiteral(t: string)
  {
    if t != [] && t[0] in "+-" then IsUnsignedDecimalLiteral(t[1..]) else IsUnsignedDecimalLiteral(t)
  }

  /** True when `Number(s)` is not NaN: the trimmed text is empty or a numeric literal. */
  predicate IsNumeric(s: string)
  {
    var t := Trim(s);
    t == [] || IsNonDecimalLiteral(t) || IsDecimalLiteral(t)
  }

  /** A non-empty run of decimal digits is numeric. */
  lemma DigitsAreNumeric(s: string)
    requires s != [] && AllIn(Digit, s)
    ensures IsNumeric(s)
  {
    assert RunEnd(s, 0, Space) == 0;
    assert RunStart(s, |s|, Space) == |s|;
    assert Trim(s) == s;
    assert s[0] !in "+-";
    assert RunEnd(s, 0, Digit) == |s|;
    assert s[|s|..] == [];
    assert IsUnsignedDecimalLiteral(s);
  }

  // ----- the lookup -----

  /** `killData.find((e) => e.id === key)` */
  function Find(table: seq<KillEntry>, key: string): (r: Option<KillEntry>)
    ensures r.Some? ==> r.value in table && r.value.id == key
    ensures r.None? ==> forall e :: e in table ==> e.id != key
  {
    if table == [] then None
    else if table[0].id == key then Some(table[0])
    else Find(table[1..], key)
  }

  const Unknown := KillPlayer("unknown", Player, "Unknown")

  /** The lookup of `getKillInformation` against a given table. */
  function Lookup(table: seq<KillEntry>, ign: Option<string>): (r: KillPlayer)
  {
    if ign.None? || ign.value == [] then Unknown
    else
      match Find(table, ToLower(ign.value))
      case Some(e) => KillPlayer(ign.value, e.kind, e.name)
      case None =>
        if IsNumeric(ign.value) then KillPlayer(ign.value, Npc, "Scientist")
        else KillPlayer(ign.value, Player, ign.value)
  }

  /** `Helper.getKillInformation`: `None` stands for `undefined`. */
  function GetKillInformation(ign: Option<string>): (r: KillPlayer)
  {
    Lookup(KillData, ign)
  }

  /** The four outcomes of the lookup. */
  predicate IsUnknownOutcome(ign: Option<string>, r: KillPlayer)
  {
    (ign.None? || ign.value == []) && r == Unknown
  }

  predicate IsTableOutcome(table: seq<KillEntry>, ign: Option<string>, r: KillPlayer)
  {
    && ign.Some? && ign.value != []
    && (exists e :: e in table && e.id == ToLower(ign.value) && r == KillPlayer(ign.value, e.kind, e.name))
  }

  predicate NotInTable(table: seq<KillEntry>, ign: string)
  {
    forall e :: e in table ==> e.id != ToLower(ign)
  }

  predicate IsScientistOutcome(table: seq<KillEntry>, ign: Option<string>, r: KillPlayer)
  {
    && ign.Some? && ign.value != [] && NotInTable(table, ign.value)
    && IsNumeric(ign.value) && r == KillPlayer(ign.value, Npc, "Scientist")
  }

  predicate IsPlayerOutcome(table: seq<KillEntry>, ign: Option<string>, r: KillPlayer)
  {
    && ign.Some? && ign.value != [] && NotInTable(table, ign.value)
    && !IsNumeric(ign.value) && r == KillPlayer(ign.value, Player, ign.value)
  }

  /** The lookup is total and every input lands in exactly one of the four outcomes. */
  lemma LookupOutcomes(table: seq<KillEntry>, ign: Option<string>)
    ensures var r := Lookup(table, ign);
      && (IsUnknownOutcome(ign, r) || IsTableOutcome(table, ign, r)
          || IsScientistOutcome(table, ign, r) || IsPlayerOutcome(table, ign, r))
      && !(IsUnknownOutcome(ign, r) && IsTableOutcome(table, ign, r))
      && !(IsTableOutcome(table, ign, r) && (IsScientistOutcome(table, ign, r) || IsPlayerOutcome(table, ign, r)))
      && !(IsScientistOutcome(table, ign, r) && IsPlayerOutcome(table, ign, r))
  {
    var r := Lookup(table, ign);
    if ign.Some? && ign.value != [] {
      var f := Find(table, ToLower(ign.value));
      if f.Some? {
        assert IsTableOutcome(table, ign, r);
      }
    }
  }

  /** With distinct ids, a known identifier (in any letter case) takes the matching entry's
      type and name and keeps the caller's spelling. */
  lemma TableMatchWins(table: seq<KillEntry>, ign: string, e: KillEntry)
    requires DistinctIds(table)
    requires ign != [] && e in table && e.id == ToLower(ign)
    ensures Lookup(table, Some(ign)) == KillPlayer(ign, e.kind, e.name)
  {
    var f := Find(table, ToLower(ign));
    assert f.Some?;
    var i :| 0 <= i < |table| && table[i] == f.value;
    var j :| 0 <= j < |table| && table[j] == e;
    assert i == j;
  }

  /** A purely numeric identifier that is not in the table is an NPC "Scientist". */
  lemma NumericFallback(table: seq<KillEntry>, ign: string)
    requires ign != [] && AllIn(Digit, ign) && NotInTable(table, ign)
    ensures Lookup(table, Some(ign)) == KillPlayer(ign, Npc, "Scientist")
  {
    DigitsAreNumeric(ign);
  }

  /** Identifiers in `killData` are pairwise distinct. */
  predicate DistinctIds(table: seq<KillEntry>)
  {
    forall i, j :: 0 <= i < j < |table| ==> table[i].id != table[j].id
  }

  // The table facts are checked over the id column in small blocks, which keeps each
  // proof obligation about the 37-entry literal small.
  const KillIds: seq<string> := [
    "thirst", "hunger", "cold", "bleeding", "fall",
    "drowned", "radiation", "pee pee 9000", "bear", "boar",
    "wolf", "patrolhelicopter", "bradleyapc", "guntrap.deployed", "autoturret_deployed",
    "flameturret.deployed", "teslacoil.deployed", "campfire", "barricade.wood", "barricade.metal",
    "barricade.woodwire", "spikes.floor", "wall.external.high.stone", "wall.external.high", "gates.external.high.wood",
    "gates.external.high.stone", "sentry.bandit.static", "sentry.scientist.static", "landmine", "rocket_crane_lift_trigger",
    "cactus", "rowboat", "fireball", "oilfireballsmall", "napalm",
    "cargoshipdynamic1", "beartrap"
  ]

  lemma IdColumn0() ensures forall i :: 0 <= i < 7 ==> KillData[i].id == KillIds[i] {}
  lemma IdColumn7() ensures forall i :: 7 <= i < 13 ==> KillData[i].id == KillIds[i] {}
  lemma IdColumn13() ensures forall i :: 13 <= i < 19 ==> KillData[i].id == KillIds[i] {}
  lemma IdColumn19() ensures forall i :: 19 <= i < 25 ==> KillData[i].id == KillIds[i] {}
  lemma IdColumn25() ensures forall i :: 25 <= i < 31 ==> KillData[i].id == KillIds[i] {}
  lemma IdColumn31() ensures forall i :: 31 <= i < 37 ==> KillData[i].id == KillIds[i] {}

  lemma LowerIds0() ensures forall i :: 0 <= i < 7 ==> KillIds[i] != [] && IsLower(KillIds[i]) {}
  lemma LowerIds7() ensures forall i :: 7 <= i < 13 ==> KillIds[i] != [] && IsLower(KillIds[i]) {}
  lemma LowerIds13() ensures forall i :: 13 <= i < 19 ==> KillIds[i] != [] && IsLower(KillIds[i]) {}
  lemma LowerIds19() ensures forall i :: 19 <= i < 25 ==> KillIds[i] != [] && IsLower(KillIds[i]) {}
  lemma LowerIds25() ensures forall i :: 25 <= i < 31 ==> KillIds[i] != [] && IsLower(KillIds[i]) {}
  lemma LowerIds31() ensures forall i :: 31 <= i < 37 ==> KillIds[i] != [] && IsLower(KillIds[i]) {}

  lemma DistinctIds0x0() ensures forall i, j :: 0 <= i < 13 && 0 <= j < 13 && i < j ==> KillIds[i] != KillIds[j] {}
  lemma DistinctIds0x13() ensures forall i, j :: 0 <= i < 13 && 13 <= j < 25 && i < j ==> KillIds[i] != KillIds[j] {}
  lemma DistinctIds0x25() ensures forall i, j :: 0 <= i < 13 && 25 <= j < 37 && i < j ==> KillIds[i] != KillIds[j] {}
  lemma DistinctIds13x13() ensures forall i, j :: 13 <= i < 25 && 13 <= j < 25 && i < j ==> KillIds[i] != KillIds[j] {}
  lemma DistinctIds13x25() ensures forall i, j :: 13 <= i < 25 && 25 <= j < 37 && i < j ==> KillIds[i] != KillIds[j] {}
  lemma DistinctIds25x25() ensures forall i, j :: 25 <= i < 37 && 25 <= j < 37 && i < j ==> KillIds[i] != KillIds[j] {}

  lemma IdColumn()
    ensures |KillIds| == |KillData|
    ensures forall i :: 0 <= i < |KillData| ==> KillData[i].id == KillIds[i]
  {
    IdColumn0(); IdColumn7(); IdColumn13(); IdColumn19(); IdColumn25(); IdColumn31();
  }

  lemma IdsUnique()
    ensures DistinctIds(KillData)
  {
    IdColumn();
    DistinctIds0x0(); DistinctIds0x13(); DistinctIds0x25();
    DistinctIds13x13(); DistinctIds13x25(); DistinctIds25x25();
    assert forall i, j :: 0 <= i < j < |KillIds| ==> KillIds[i] != KillIds[j];
  }

  /** Every table id is already lower case, so the lower-cased lookup can reach every entry. */
  lemma IdsLowerCase()
    ensures forall i :: 0 <= i < |KillData| ==> KillData[i].id != [] && IsLower(KillData[i].id)
  {
    IdColumn();
    LowerIds0(); LowerIds7(); LowerIds13(); LowerIds19(); LowerIds25(); LowerIds31();
  }

  /** Every entry is found by its own id. */
  lemma EveryEntryReachable(e: KillEntry)
    requires e in KillData
    ensures GetKillInformation(Some(e.id)) == KillPlayer(e.id, e.kind, e.name)
  {
    var i :| 0 <= i < |KillData| && KillData[i] == e;
    IdsLowerCase();
    IdsUnique();
    ToLowerOfLower(e.id);
    TableMatchWins(KillData, e.id, e);
  }

  function IdSet(table: seq<KillEntry>): (ids: set<string>)
    ensures |ids| <= |table|
  {
    if table == [] then {} else {table[0].id} + IdSet(table[1..])
  }

  lemma {:induction false} IdSetMember(table: seq<KillEntry>, x: string)
    requires x in IdSet(table)
    ensures exists i :: 0 <= i < |table| && table[i].id == x
  {
    if table[0].id != x {
      IdSetMember(table[1..], x);
      var i :| 0 <= i < |table[1..]| && table[1..][i].id == x;
      assert table[i + 1].id == x;
    }
  }

  /** `Helper.areIdsUnique`: the set of ids is as large as the list of ids. */
  function AreIdsUnique(): bool
  {
    |IdSet(KillData)| == |KillData|
  }

  /** The set of ids has one element per entry exactly when the ids are distinct. */
  lemma {:induction false} IdSetSize(table: seq<KillEntry>)
    ensures |IdSet(table)| == |table| <==> DistinctIds(table)
  {
    if table != [] {
      var rest := table[1..];
      IdSetSize(rest);
      var isNew := table[0].id !in IdSet(rest);
      if isNew {
        assert |IdSet(table)| == 1 + |IdSet(rest)|;
        if DistinctIds(rest) {
          forall i, j | 0 <= i < j < |table| ensures table[i].id != table[j].id {
            if i == 0 {
              if table[j].id == table[0].id {
                IdSetHas(rest, j - 1);
              }
            } else {
              assert table[i] == rest[i - 1] && table[j] == rest[j - 1];
            }
          }
        } else {
          var i, j :| 0 <= i < j < |rest| && rest[i].id == rest[j].id;
          assert table[i + 1].id == table[j + 1].id;
        }
      } else {
        assert IdSet(table) == IdSet(rest);
        IdSetMember(rest, table[0].id);
        var k :| 0 <= k < |rest| && rest[k].id == table[0].id;
        assert table[k + 1].id == table[0].id;
      }
    }
  }

  lemma {:induction false} IdSetHas(table: seq<KillEntry>, k: nat)
    requires k < |table|
    ensures table[k].id in IdSet(table)
  {
    if k > 0 {
      IdSetHas(table[1..], k - 1);
    }
  }

  lemma AreIdsUniqueHolds()
    ensures AreIdsUnique()
  {
    IdsUnique();
    IdSetSize(KillData);
  }
}
