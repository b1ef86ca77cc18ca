/**
 * The quote of the day: one of twelve fixed sayings, picked by the day of
 * the year. The day of the year comes from the clock, so it is a parameter
 * here: it is 1 on January 1st and 365 or 366 on December 31st.
 */
module Quote {
  import opened Records

  datatype Saying = Saying(text: string, author: string)

  /** The table of sayings, in display order. */
  const Sayings: seq<Saying> := [
    Saying("A wise man doth not hoard his gold, but spendeth it with purpose and honour.", "The Code of the Ledger"),
    Saying("He who keepeth account of every coin shall never be a servant to debt.", "The Merchant's Creed"),
    Saying("Discipline in thy purse is the truest armour against the siege of ruin.", "Sir Edmund the Frugal"),
    Saying("Spend not thy silver on fleeting pleasures, but invest in the fortress of thy future.", "The Order of the Golden Quill"),
    Saying("A knight who knoweth his expenses fighteth not in the dark.", "The Treasury Scrolls"),
    Saying("Even the mightiest castle was built one stone — and one coin — at a time.", "The Builder's Proverb"),
    Saying("To master thy wealth is to master thyself; there is no greater conquest.", "The Sage of Ironhall"),
    Saying("Let every coin tell a tale of wisdom, not of folly.", "The Chronicler's Oath"),
    Saying("Guard thy gold as thou wouldst guard thy honour — with vigilance and resolve.", "The Shield-Bearer's Maxim"),
    Saying("The road to ruin is paved with untracked spending. Map thy journey, brave soul.", "The Pilgrim's Ledger"),
    Saying("Fear not the tally of thy debts — face them, and they shall crumble like old ramparts.", "Lord Aldric the Steadfast"),
    Saying("A full treasury without a plan is but a dragon's hoard — useless and cursed.", "The Alchemist's Warning")
  ]

  /**
   * JavaScript's `%`: the remainder of division truncated toward zero, so it
   * takes the sign of the dividend.
   */
  function JsRem(a: int, n: int): (r: int)
    requires n > 0
    ensures a >= 0 ==> 0 <= r < n && r == a % n
    ensures a < 0 ==> -n < r <= 0 && exists q: int :: a == q * n + r
  {
    if a >= 0 then a % n
    else
      var q := (-a) / n;
      assert -a == q * n + (-a) % n;
      assert a == (-q) * n + -((-a) % n);
      -((-a) % n)
  }

  /**
   * `QUOTES[dayOfYear % QUOTES.length]`: the saying of the day, or none when
   * the index falls outside the table (only for a negative day of the year,
   * where the remainder is negative).
   */
  function QuoteOfDay(dayOfYear: int): (q: Option<Saying>)
    ensures q.Some? <==> dayOfYear >= 0 || JsRem(dayOfYear, |Sayings|) == 0
    ensures dayOfYear >= 0 ==> q == Some(Sayings[dayOfYear % 12])
  {
    var i := JsRem(dayOfYear, |Sayings|);
    if 0 <= i < |Sayings| then Some(Sayings[i]) else None
  }

  /** A saying's fingerprint: the lengths of its text and of its author. */
  function Fingerprint(q: Saying): int
  {
    |q.text| * 100 + |q.author|
  }

  /** The fingerprints of the table, in order; no two are equal. */
  const Fingerprints: seq<int> := [7622, 7020, 7121, 8529, 5920, 7321, 7220, 5121, 7725, 7920, 8625, 7623]

  lemma SayingFingerprints()
    ensures forall i :: 0 <= i < |Sayings| ==> Fingerprint(Sayings[i]) == Fingerprints[i]
  {
    FirstFingerprints();
    LastFingerprints();
  }

  lemma FirstFingerprints()
    ensures forall i :: 0 <= i < 6 ==> Fingerprint(Sayings[i]) == Fingerprints[i]
  {
    assert |Sayings[0].text| == 76 && |Sayings[0].author| == 22;
    assert |Sayings[1].text| == 70 && |Sayings[1].author| == 20;
    assert |Sayings[2].text| == 71 && |Sayings[2].author| == 21;
    assert |Sayings[3].text| == 85 && |Sayings[3].author| == 29;
    assert |Sayings[4].text| == 59 && |Sayings[4].author| == 20;
    assert |Sayings[5].text| == 73 && |Sayings[5].author| == 21;
  }

  lemma LastFingerprints()
    ensures forall i :: 6 <= i < 12 ==> Fingerprint(Sayings[i]) == Fingerprints[i]
  {
    assert |Sayings[6].text| == 72 && |Sayings[6].author| == 20;
    assert |Sayings[7].text| == 51 && |Sayings[7].author| == 21;
    assert |Sayings[8].text| == 77 && |Sayings[8].author| == 25;
    assert |Sayings[9].text| == 79 && |Sayings[9].author| == 20;
    assert |Sayings[10].text| == 86 && |Sayings[10].author| == 25;
    assert |Sayings[11].text| == 76 && |Sayings[11].author| == 23;
  }

  /** No two sayings of the table are the same: their fingerprints differ. */
  lemma SayingsDistinct()
    ensures forall i, j :: 0 <= i < j < |Sayings| ==> Sayings[i] != Sayings[j]
  {
    SayingFingerprints();
    forall i, j | 0 <= i < j < |Sayings| ensures Sayings[i] != Sayings[j] {
      assert Fingerprints[i] != Fingerprints[j];
    }
  }

  /** Twelve days apart, the saying is the same. */
  lemma QuotePeriodic(dayOfYear: int)
    requires dayOfYear >= 0
    ensures QuoteOfDay(dayOfYear + 12) == QuoteOfDay(dayOfYear)
  {
    assert (dayOfYear + 12) % 12 == dayOfYear % 12;
  }

  /**
   * The saying changes every day: two consecutive days of a year of
   * `yearLength` days, and its last day (the 365th or, in a leap year, the
   * 366th) and the first of the next, get different sayings.
   */
  lemma QuoteChangesDaily(yearLength: int, today: int, tomorrow: int)
    requires yearLength == 365 || yearLength == 366
    requires 1 <= today <= yearLength
    requires (today < yearLength && tomorrow == today + 1) || (today == yearLength && tomorrow == 1)
    ensures QuoteOfDay(today).Some? && QuoteOfDay(tomorrow).Some?
    ensures QuoteOfDay(today) != QuoteOfDay(tomorrow)
  {
    SayingsDistinct();
    assert today % 12 != tomorrow % 12;
  }
}
