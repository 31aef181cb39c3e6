/**
 * The chance totals of a `SpawnSet` (src/doodle-jump/spawners/SpawnSet.ts).
 *
 * The constructor stores its arguments and adds up, one entry at a time, the
 * spawn chances of the platform, obstacle and item entries; a fourth total
 * adds only the platforms that are not breakable. Chances are exact reals.
 */
module SpawnSet {

  /** The two components of a `vec2`. */
  datatype Vec2 = Vec2(x: real, y: real)

  /** The fields of a platform entry that the totals read. */
  datatype PlatformSpawnInfo = PlatformSpawnInfo(spawnChance: real, isBreakable: bool)

  datatype ObstacleSpawnInfo = ObstacleSpawnInfo(spawnChance: real)

  datatype PlatformItemSpawnInfo = PlatformItemSpawnInfo(spawnChance: real)

  /** Sum of the platform chances, added in list order. */
  function PlatformChances(infos: seq<PlatformSpawnInfo>): real
  {
    if infos == [] then 0.0
    else PlatformChances(infos[..|infos| - 1]) + infos[|infos| - 1].spawnChance
  }

  /** Sum of the chances of the platforms that are not breakable. */
  function NonBreakableChances(infos: seq<PlatformSpawnInfo>): real
  {
    if infos == [] then 0.0
    else NonBreakableChances(infos[..|infos| - 1])
         + (if infos[|infos| - 1].isBreakable then 0.0 else infos[|infos| - 1].spawnChance)
  }

  /** Sum of the chances of the platforms that are breakable. */
  function BreakableChances(infos: seq<PlatformSpawnInfo>): real
  {
    if infos == [] then 0.0
    else BreakableChances(infos[..|infos| - 1])
         + (if infos[|infos| - 1].isBreakable then infos[|infos| - 1].spawnChance else 0.0)
  }

  function ObstacleChances(infos: seq<ObstacleSpawnInfo>): real
  {
    if infos == [] then 0.0
    else ObstacleChances(infos[..|infos| - 1]) + infos[|infos| - 1].spawnChance
  }

  function ItemChances(infos: seq<PlatformItemSpawnInfo>): real
  {
    if infos == [] then 0.0
    else ItemChances(infos[..|infos| - 1]) + infos[|infos| - 1].spawnChance
  }

  ghost predicate NonNegativeChances(infos: seq<PlatformSpawnInfo>)
  {
    forall i :: 0 <= i < |infos| ==> infos[i].spawnChance >= 0.0
  }

  /** The platform total splits into the non-breakable part and the breakable part. */
  lemma {:induction false} PlatformChancesSplit(infos: seq<PlatformSpawnInfo>)
    ensures PlatformChances(infos) == NonBreakableChances(infos) + BreakableChances(infos)
  {
    if infos != [] {
      PlatformChancesSplit(infos[..|infos| - 1]);
    }
  }

  lemma {:induction false} BreakableChancesNonNegative(infos: seq<PlatformSpawnInfo>)
    requires NonNegativeChances(infos)
    ensures BreakableChances(infos) >= 0.0
  {
    if infos != [] {
      BreakableChancesNonNegative(infos[..|infos| - 1]);
    }
  }

  /** With non-negative chances, the non-breakable total never exceeds the platform total. */
  lemma NonBreakableAtMostTotal(infos: seq<PlatformSpawnInfo>)
    requires NonNegativeChances(infos)
    ensures NonBreakableChances(infos) <= PlatformChances(infos)
  {
    PlatformChancesSplit(infos);
    BreakableChancesNonNegative(infos);
  }

  /** With no breakable platform, the two platform totals are equal, whatever the signs. */
  lemma {:induction false} NoBreakableMeansEqualTotals(infos: seq<PlatformSpawnInfo>)
    requires forall i :: 0 <= i < |infos| ==> !infos[i].isBreakable
    ensures NonBreakableChances(infos) == PlatformChances(infos)
  {
    if infos != [] {
      NoBreakableMeansEqualTotals(infos[..|infos| - 1]);
    }
  }

  class SpawnSet {
    var setChance: real
    var setDuration: real
    var minHeight: real
    var maxHeight: real
    var varianceX: Vec2
    var varianceY: Vec2
    var platformSpawnInfos: seq<PlatformSpawnInfo>
    var totalNonBreakableChanceCount: real
    var totalPlatformChanceCount: real
    var obstacleSpawnInfos: seq<ObstacleSpawnInfo>
    var totalObstacleChanceCount: real
    var obstacleSpawnChance: real
    var platformItemSpawnInfos: seq<PlatformItemSpawnInfo>
    var totalItemChanceCount: real
    var baseNoItemChance: real

    /** Stores every argument in its field and adds up the four totals; empty lists give 0. */
    constructor (setChance: real, setDuration: real, minHeight: real, maxHeight: real,
                 varianceX: Vec2, varianceY: Vec2,
                 platformSpawnInfos: seq<PlatformSpawnInfo>, obstacleSpawnInfos: seq<ObstacleSpawnInfo>,
                 obstacleSpawnChance: real,
                 platformItemSpawnInfos: seq<PlatformItemSpawnInfo>, baseNoItemChance: real)
      ensures this.setChance == setChance && this.setDuration == setDuration
      ensures this.minHeight == minHeight && this.maxHeight == maxHeight
      ensures this.varianceX == varianceX && this.varianceY == varianceY
      ensures this.platformSpawnInfos == platformSpawnInfos
      ensures this.obstacleSpawnInfos == obstacleSpawnInfos
      ensures this.obstacleSpawnChance == obstacleSpawnChance
      ensures this.platformItemSpawnInfos == platformItemSpawnInfos
      ensures this.baseNoItemChance == baseNoItemChance
      ensures totalPlatformChanceCount == PlatformChances(platformSpawnInfos)
      ensures totalNonBreakableChanceCount == NonBreakableChances(platformSpawnInfos)
      ensures totalObstacleChanceCount == ObstacleChances(obstacleSpawnInfos)
      ensures totalItemChanceCount == ItemChances(platformItemSpawnInfos)
    {
      this.setChance := setChance;
      this.setDuration := setDuration;
      this.minHeight := minHeight;
      this.maxHeight := maxHeight;
      this.varianceX := varianceX;
      this.varianceY := varianceY;
      this.platformSpawnInfos := platformSpawnInfos;
      this.obstacleSpawnInfos := obstacleSpawnInfos;
      this.obstacleSpawnChance := obstacleSpawnChance;
      this.platformItemSpawnInfos := platformItemSpawnInfos;
      this.baseNoItemChance := baseNoItemChance;
      totalNonBreakableChanceCount := 0.0;
      totalPlatformChanceCount := 0.0;
      totalObstacleChanceCount := 0.0;
      totalItemChanceCount := 0.0;
      new;

      for i := 0 to |platformSpawnInfos|
        invariant totalPlatformChanceCount == PlatformChances(platformSpawnInfos[..i])
        invariant totalNonBreakableChanceCount == NonBreakableChances(platformSpawnInfos[..i])
        modifies this`totalPlatformChanceCount, this`totalNonBreakableChanceCount
      {
        var element := this.platformSpawnInfos[i];
        assert platformSpawnInfos[..i + 1][..i] == platformSpawnInfos[..i];
        totalPlatformChanceCount := totalPlatformChanceCount + element.spawnChance;
        if !element.isBreakable {
          totalNonBreakableChanceCount := totalNonBreakableChanceCount + element.spawnChance;
        }
      }
      assert platformSpawnInfos[..|platformSpawnInfos|] == platformSpawnInfos;

      for i := 0 to |obstacleSpawnInfos|
        invariant totalObstacleChanceCount == ObstacleChances(obstacleSpawnInfos[..i])
        modifies this`totalObstacleChanceCount
      {
        var element := this.obstacleSpawnInfos[i];
        assert obstacleSpawnInfos[..i + 1][..i] == obstacleSpawnInfos[..i];
        totalObstacleChanceCount := totalObstacleChanceCount + element.spawnChance;
      }
      assert obstacleSpawnInfos[..|obstacleSpawnInfos|] == obstacleSpawnInfos;

      for i := 0 to |platformItemSpawnInfos|
        invariant totalItemChanceCount == ItemChances(platformItemSpawnInfos[..i])
        modifies this`totalItemChanceCount
      {
        var element := this.platformItemSpawnInfos[i];
        assert platformItemSpawnInfos[..i + 1][..i] == platformItemSpawnInfos[..i];
        totalItemChanceCount := totalItemChanceCount + element.spawnChance;
      }
      assert platformItemSpawnInfos[..|platformItemSpawnInfos|] == platformItemSpawnInfos;
    }
  }
}
