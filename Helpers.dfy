/**
  Note identifiers: `generateUniqueId` renders the clock reading in decimal,
  a dash, and nine characters taken from a random base-36 rendering. The
  clock reading and the random rendering are inputs here; what can be proved
  is that the format is injective and that the time part reads back.
 */
module Helpers {
  import opened JsString

  /** The separator between the time part and the random part. */
  const Separator: char := '-'

  /** `${time}-${suffix}`. */
  function FormatId(time: nat, suffix: string): (id: string)
    ensures |id| > |Decimal(time)|
    ensures id[..|Decimal(time)|] == Decimal(time) && id[|Decimal(time)|] == Separator
    ensures id[|Decimal(time)| + 1..] == suffix
  {
    Decimal(time) + [Separator] + suffix
  }

  /** `generateUniqueId()` with `Date.now()` given as `now` and
      `Math.random().toString(36)` given as `randomBase36`. */
  function GenerateUniqueId(now: nat, randomBase36: string): (id: string)
    ensures |id| > 0
  {
    FormatId(now, Substr(randomBase36, 2, 9))
  }

  /** The random part is at most nine characters, drawn from the rendering
      after its leading "0.", and holds no dash when the rendering holds none
      (a base-36 rendering of a number in [0, 1) never does). */
  lemma {:induction false} SuffixShape(now: nat, randomBase36: string)
    ensures var id := GenerateUniqueId(now, randomBase36);
            var suffix := id[|Decimal(now)| + 1..];
            && |suffix| <= 9
            && suffix == Substr(randomBase36, 2, 9)
            && (Separator !in randomBase36 ==> Separator !in suffix)
  {
  }

  /** `Number(id.split('-')[0])` is the clock reading the id was made from,
      hence positive whenever the reading is. */
  lemma {:induction false} TimePartRoundTrip(now: nat, randomBase36: string)
    ensures var head := SplitFirst(GenerateUniqueId(now, randomBase36), Separator);
            && head == Decimal(now)
            && IsDigits(head)
            && ParseDecimal(head) == now
            && (now > 0 ==> ParseDecimal(head) > 0)
  {
    SplitFirstOfJoin(Decimal(now), Separator, Substr(randomBase36, 2, 9));
    ParseDecimalOfDecimal(now);
  }

  /** Different (time, suffix) pairs give different ids: the first dash of an
      id splits it back into the two. */
  lemma FormatIdInjective(t1: nat, s1: string, t2: nat, s2: string)
    requires FormatId(t1, s1) == FormatId(t2, s2)
    ensures t1 == t2 && s1 == s2
  {
    SplitFirstOfJoin(Decimal(t1), Separator, s1);
    SplitFirstOfJoin(Decimal(t2), Separator, s2);
    DecimalInjective(t1, t2);
  }

  /** Two ids made at different clock readings differ, whatever the random
      parts. */
  lemma DistinctTimesGiveDistinctIds(t1: nat, r1: string, t2: nat, r2: string)
    requires t1 != t2
    ensures GenerateUniqueId(t1, r1) != GenerateUniqueId(t2, r2)
  {
    if GenerateUniqueId(t1, r1) == GenerateUniqueId(t2, r2) {
      FormatIdInjective(t1, Substr(r1, 2, 9), t2, Substr(r2, 2, 9));
    }
  }
}
