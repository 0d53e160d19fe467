/**
 * The per-player statistics record: kills, deaths, the kill/death ratio and the highest kill
 * streak of one player, loaded from the store by an asynchronous read and written back by
 * fire-and-forget store calls. The store calls a record issues are kept, in issue order, in its
 * `ops` log; the read's result arrives through `DeliverRows`.
 */
module Session {
  import opened Results

  const StatKills: string := "kills"
  const StatDeaths: string := "deaths"
  const StatHighestKillStreak: string := "highestKillStreak"

  /** A store call: upsert the player, read their stats row, overwrite one named stat, or
      overwrite the kill/death ratio (in hundredths). */
  datatype Op =
    | Player(uuid: string, name: string)
    | StatsByUuid(uuid: string)
    | Update(uuid: string, stat: string, value: int)
    | UpdateKdr(uuid: string, value: int)

  /** One row of the stats table; `kdr` is in hundredths. */
  datatype Row = Row(uuid: string, name: string, kills: int, deaths: int, kdr: int, highestKillStreak: int)

  /** The read found no row for a player the upsert should already have registered. */
  datatype Defect = PlayerNotRegistered

  /** The divisor of the ratio: the deaths, or 1 while there are none. */
  function KdrDivisor(deaths: int): int
  {
    if deaths > 0 then deaths else 1
  }

  /** `kills / KdrDivisor(deaths)` rounded to two decimals, half away from zero, as a whole
      number of hundredths. */
  function Kdr(kills: int, deaths: int): (r: int)
    ensures kills >= 0 ==> r >= 0
    ensures kills <= 0 ==> r <= 0
  {
    var m := KdrDivisor(deaths);
    if kills >= 0 then (200 * kills + m) / (2 * m) else -((200 * -kills + m) / (2 * m))
  }

  /** `h` hundredths is `num / den` rounded to two decimals with halves rounded away from zero:
      `h - 1/2 <= 100 * num / den < h + 1/2` for a non-negative ratio, mirrored for a negative one. */
  ghost predicate RoundsTo(num: int, den: int, h: int)
    requires den > 0
  {
    if num >= 0 then den * (2 * h - 1) <= 200 * num < den * (2 * h + 1)
    else den * (2 * h - 1) < 200 * num <= den * (2 * h + 1)
  }

  /** The quotient and remainder of `200 * n + den` by `2 * den` place it within half a unit. */
  lemma RoundHalfUp(n: int, den: int)
    requires n >= 0 && den > 0
    ensures den * (2 * ((200 * n + den) / (2 * den)) - 1) <= 200 * n < den * (2 * ((200 * n + den) / (2 * den)) + 1)
  {
    var a, b := 200 * n + den, 2 * den;
    var q, r := a / b, a % b;
    assert a == b * q + r && 0 <= r < b;
    assert den * (2 * q - 1) == b * q - den;
    assert den * (2 * q + 1) == b * q + den;
  }

  /** The ratio written to the store is the ratio of kills to the divisor, rounded to
      hundredths with halves away from zero. */
  lemma {:induction false} KdrRounds(kills: int, deaths: int)
    ensures RoundsTo(kills, KdrDivisor(deaths), Kdr(kills, deaths))
  {
    var m := KdrDivisor(deaths);
    if kills >= 0 {
      RoundHalfUp(kills, m);
    } else {
      RoundHalfUp(-kills, m);
      var q := (200 * -kills + m) / (2 * m);
      assert Kdr(kills, deaths) == -q;
      assert m * (2 * q - 1) == -(m * (2 * -q + 1));
      assert m * (2 * q + 1) == -(m * (2 * -q - 1));
    }
  }

  /** At most one number of hundredths is the rounding of a ratio. */
  lemma RoundsToUnique(num: int, den: int, h1: int, h2: int)
    requires den > 0 && RoundsTo(num, den, h1) && RoundsTo(num, den, h2)
    ensures h1 == h2
  {
  }

  /** With no deaths the divisor is 1: the ratio is the kill count itself. */
  lemma KdrWithoutDeaths(kills: int, deaths: int)
    requires deaths <= 0
    ensures Kdr(kills, deaths) == 100 * kills
  {
    KdrRounds(kills, deaths);
    RoundsToUnique(kills, 1, Kdr(kills, deaths), 100 * kills);
  }

  /** A whole ratio is exact: `c * deaths` kills over `deaths` deaths is `c`. */
  lemma KdrExactRatio(c: int, deaths: int)
    requires deaths > 0
    ensures Kdr(c * deaths, deaths) == 100 * c
  {
    KdrRounds(c * deaths, deaths);
    var num := c * deaths;
    assert deaths * (2 * (100 * c) - 1) == 200 * num - deaths;
    assert deaths * (2 * (100 * c) + 1) == 200 * num + deaths;
    RoundsToUnique(num, deaths, Kdr(num, deaths), 100 * c);
  }

  class Stats {
    const uuid: string
    const name: string
    var kills: int
    var deaths: int
    /** The ratio in hundredths: the constructor's value until rows arrive, then the first row's. */
    var kdr: int
    var highestKillStreak: int
    /** The store calls this record has issued, oldest first. */
    var ops: seq<Op>

    /** The upsert and the read come first; every later call is a write; every call is about
        this record's own player. */
    ghost predicate Valid()
      reads this
    {
      && |ops| >= 2
      && ops[0] == Player(uuid, name)
      && ops[1] == StatsByUuid(uuid)
      && (forall j :: 2 <= j < |ops| ==> ops[j].Update? || ops[j].UpdateKdr?)
      && (forall j :: 0 <= j < |ops| ==> ops[j].uuid == uuid)
    }

    /** Takes the given counters (zero by default), then issues the player upsert and the read
        of the player's row. */
    constructor (uuid: string, name: string, kills: int := 0, deaths: int := 0, kdr: int := 0, highestKillStreak: int := 0)
      ensures Valid()
      ensures this.uuid == uuid && this.name == name
      ensures this.kills == kills && this.deaths == deaths && this.kdr == kdr && this.highestKillStreak == highestKillStreak
      ensures ops == [Player(uuid, name), StatsByUuid(uuid)]
    {
      this.uuid := uuid;
      this.name := name;
      this.kills := kills;
      this.deaths := deaths;
      this.kdr := kdr;
      this.highestKillStreak := highestKillStreak;
      ops := [Player(uuid, name), StatsByUuid(uuid)];
    }

    /** A record whose counters come from a row; it issues the same two calls as any other. */
    static method FromRow(row: Row) returns (s: Stats)
      ensures fresh(s) && s.Valid()
      ensures s.uuid == row.uuid && s.name == row.name
      ensures s.kills == row.kills && s.deaths == row.deaths && s.kdr == row.kdr && s.highestKillStreak == row.highestKillStreak
      ensures s.ops == [Player(row.uuid, row.name), StatsByUuid(row.uuid)]
    {
      s := new Stats(row.uuid, row.name, row.kills, row.deaths, row.kdr, row.highestKillStreak);
    }

    /** The result of the read arrives. No row is a defect raised before anything is assigned;
        otherwise the first row overwrites all four counters. Nothing is issued. */
    method DeliverRows(rows: seq<Row>) returns (r: Outcome<Defect>)
      requires Valid()
      modifies this
      ensures Valid() && ops == old(ops)
      ensures r.Fail? <==> |rows| == 0
      ensures |rows| == 0 ==> r == Fail(PlayerNotRegistered)
      ensures |rows| == 0 ==>
        kills == old(kills) && deaths == old(deaths) && kdr == old(kdr) && highestKillStreak == old(highestKillStreak)
      ensures |rows| > 0 ==>
        kills == rows[0].kills && deaths == rows[0].deaths && kdr == rows[0].kdr && highestKillStreak == rows[0].highestKillStreak
    {
      if |rows| == 0 {
        return Fail(PlayerNotRegistered);
      }
      kills := rows[0].kills;
      deaths := rows[0].deaths;
      kdr := rows[0].kdr;
      highestKillStreak := rows[0].highestKillStreak;
      return Pass;
    }

    method GetName() returns (r: string)
      ensures r == name
    {
      r := name;
    }

    method GetKills() returns (r: int)
      ensures r == kills
    {
      r := kills;
    }

    method GetDeaths() returns (r: int)
      ensures r == deaths
    {
      r := deaths;
    }

    method GetKdr() returns (r: int)
      ensures r == kdr
    {
      r := kdr;
    }

    method GetHighestKillStreak() returns (r: int)
      ensures r == highestKillStreak
    {
      r := highestKillStreak;
    }

    /** Issues the write of one stat; a change of kills or deaths also issues the ratio computed
        from the current counters. */
    method UpdateStat(stat: string, value: int)
      requires Valid()
      modifies this`ops
      ensures Valid()
      ensures ops == old(ops) + [Update(uuid, stat, value)]
        + (if stat == StatKills || stat == StatDeaths then [UpdateKdr(uuid, Kdr(kills, deaths))] else [])
    {
      ops := ops + [Update(uuid, stat, value)];
      if stat == StatKills || stat == StatDeaths {
        ops := ops + [UpdateKdr(uuid, Kdr(kills, deaths))];
      }
    }

    /** One more kill, written, followed by the ratio recomputed from the new count. The
        in-memory ratio is not touched. */
    method AddKill()
      requires Valid()
      modifies this
      ensures Valid()
      ensures kills == old(kills) + 1
      ensures deaths == old(deaths) && kdr == old(kdr) && highestKillStreak == old(highestKillStreak)
      ensures ops == old(ops) + [Update(uuid, StatKills, kills), UpdateKdr(uuid, Kdr(kills, deaths))]
    {
      kills := kills + 1;
      UpdateStat(StatKills, kills);
    }

    /** One more death, written, followed by the ratio recomputed from the new count. The
        in-memory ratio is not touched. */
    method AddDeath()
      requires Valid()
      modifies this
      ensures Valid()
      ensures deaths == old(deaths) + 1
      ensures kills == old(kills) && kdr == old(kdr) && highestKillStreak == old(highestKillStreak)
      ensures ops == old(ops) + [Update(uuid, StatDeaths, deaths), UpdateKdr(uuid, Kdr(kills, deaths))]
    {
      deaths := deaths + 1;
      UpdateStat(StatDeaths, deaths);
    }

    /** Overwrites the highest kill streak, whatever it was, and writes it; no ratio is issued. */
    method SetHighestKillStreak(value: int)
      requires Valid()
      modifies this
      ensures Valid()
      ensures highestKillStreak == value
      ensures kills == old(kills) && deaths == old(deaths) && kdr == old(kdr)
      ensures ops == old(ops) + [Update(uuid, StatHighestKillStreak, value)]
    {
      highestKillStreak := value;
      UpdateStat(StatHighestKillStreak, value);
    }
  }

  /** A player with no prior stats makes two kills and then dies once: the counters read 2 and
      1, the in-memory ratio keeps its initial 0, and six writes follow the upsert and the read,
      each counter write followed by its ratio (1.00, 2.00, then 2.00). */
  method TwoKillsThenDeath() returns (s: Stats)
    ensures s.kills == 2 && s.deaths == 1 && s.kdr == 0 && s.highestKillStreak == 0
    ensures s.ops == [
      Player("u1", "Alice"), StatsByUuid("u1"),
      Update("u1", StatKills, 1), UpdateKdr("u1", 100),
      Update("u1", StatKills, 2), UpdateKdr("u1", 200),
      Update("u1", StatDeaths, 1), UpdateKdr("u1", 200)]
  {
    s := new Stats("u1", "Alice");
    s.AddKill();
    s.AddKill();
    s.AddDeath();
    KdrWithoutDeaths(1, 0);
    KdrWithoutDeaths(2, 0);
    KdrExactRatio(2, 1);
  }
}
