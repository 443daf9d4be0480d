/** The keys below the publication prefix: hash-named legacy objects and stable period keys. */
module PublicationKeys {
  predicate IsHexDigit(c: char) {
    '0' <= c <= '9' || 'a' <= c <= 'f'
  }

  predicate HashNamed(key: string, directory: string, suffix: string) {
    |key| == |directory| + 64 + |suffix| && directory <= key
    && (forall i :: |directory| <= i < |directory| + 64 ==> IsHexDigit(key[i]))
    && key[|directory| + 64..] == suffix
  }

  /** publication_storage_admin.LEGACY_KEY. */
  predicate LegacyKey(key: string) {
    HashNamed(key, "publication/reports/", ".html") || HashNamed(key, "publication/reports/", ".json")
    || HashNamed(key, "publication/manifests/", ".json") || HashNamed(key, "publication/latest/", ".html")
  }

  function Digit(c: char): nat {
    if '0' <= c <= '9' then (c - '0') as nat else 0
  }

  predicate IsDigit(c: char) {
    '0' <= c <= '9'
  }

  function DaysIn(year: nat, month: nat): nat {
    if month == 2 then if year % 4 == 0 && (year % 100 != 0 || year % 400 == 0) then 29 else 28
    else if month == 4 || month == 6 || month == 9 || month == 11 then 30
    else 31
  }

  /** A calendar date written as year, month and day. */
  predicate IsoDate(text: string) {
    |text| == 10 && text[4] == '-' && text[7] == '-'
    && (forall i :: 0 <= i < 10 && i != 4 && i != 7 ==> IsDigit(text[i]))
    && var year := Digit(text[0]) * 1000 + Digit(text[1]) * 100 + Digit(text[2]) * 10 + Digit(text[3]);
    var month := Digit(text[5]) * 10 + Digit(text[6]);
    var day := Digit(text[8]) * 10 + Digit(text[9]);
    year >= 1 && 1 <= month <= 12 && 1 <= day <= DaysIn(year, month)
  }

  predicate PeriodKey(key: string, kind: string, suffix: string) {
    |key| == |kind| + 11 + |suffix| && kind <= key && key[|kind|] == '/'
    && IsoDate(key[|kind| + 1..|kind| + 11]) && key[|kind| + 11..] == suffix
  }

  predicate StableReport(key: string, suffix: string) {
    PeriodKey(key, "daily", suffix) || PeriodKey(key, "weekly", suffix)
    || PeriodKey(key, "monthly", suffix) || PeriodKey(key, "seasonal", suffix)
  }

  const SITE_INDEX := "site-index.json"
  const REPORTS := "reports.json"
  const LATEST := "latest.html"

  /** publication_storage_admin.allowed_key. */
  predicate AllowedKey(key: string) {
    key == SITE_INDEX || key == REPORTS || key == LATEST
    || StableReport(key, ".html") || StableReport(key, ".json") || LegacyKey(key)
  }

  /** The two layouts share no key, so nothing the migration creates is a legacy object. */
  lemma StableIsNotLegacy(key: string)
    requires key == SITE_INDEX || key == REPORTS || key == LATEST || StableReport(key, ".html")
      || StableReport(key, ".json")
    ensures !LegacyKey(key)
  {
    assert LegacyKey(key) ==> |key| > 64;
    assert StableReport(key, ".html") || StableReport(key, ".json") ==> |key| <= 25;
  }
}
