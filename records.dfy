/** The importer's records: an identity read from a YAML file (shUIdentity), its
    profile (shProfile) and its enrollments (shEnrollment), with the date and
    string renderings that enrollment comparison is built on. */
module Records {
  import opened Wrappers
  import opened Text

  /** A time.Time in UTC: the calendar date and the nanoseconds since midnight. */
  datatype Time = Time(year: int, month: int, day: int, nanos: int)

  /** time.Time.IsZero: the instant 0001-01-01 00:00:00 UTC. */
  predicate IsZero(t: Time)
  {
    t == Time(1, 1, 1, 0)
  }

  /** gDefaultStartDate and gDefaultEndDate: the bounds that stand for "unbounded". */
  const DefaultStart := Time(1900, 1, 1, 0)
  const DefaultEnd := Time(2100, 1, 1, 0)

  datatype Profile = Profile(name: string, isBot: Option<bool>, uuid: string)

  datatype Enrollment = Enrollment(
    organization: string,
    start: Time,
    end: Time,
    uuid: string,
    orgId: int,
    projectSlug: Option<string>)

  /** One source of the dynamic "identities" part of a record: a key of the YAML
      mapping other than profile/enrollments/email, with its user names. */
  datatype Ident = Ident(source: string, usernames: seq<string>)

  datatype UIdentity = UIdentity(
    profile: Profile,
    enrollments: seq<Enrollment>,
    emails: seq<string>,
    uuid: string,
    idents: seq<Ident>)

  /** A date the importer can print as YYYY-MM-DD. */
  predicate PlainDate(t: Time)
  {
    0 <= t.year < 10000 && 1 <= t.month <= 12 && 1 <= t.day <= 31
  }

  /** toYMDDate: `%04d-%02d-%02d` of year, month and day; the time of day is dropped. */
  function ToYMDDate(t: Time): string
  {
    Concat([FormatInt(t.year, 4), "-", FormatInt(t.month, 2), "-", FormatInt(t.day, 2)])
  }

  /** Reads a YYYY-MM-DD rendering back into (year, month, day). */
  function ParseYMD(s: string): (int, int, int)
    requires |s| == 10 && AllDigits(s[..4]) && AllDigits(s[5..7]) && AllDigits(s[8..])
  {
    (Value(s[..4]), Value(s[5..7]), Value(s[8..]))
  }

  /** toYMDDate loses nothing of the calendar date. */
  lemma YMDRoundTrip(t: Time)
    requires PlainDate(t)
    ensures var s := ToYMDDate(t);
      |s| == 10 && s[4] == '-' && s[7] == '-' && AllDigits(s[..4]) && AllDigits(s[5..7]) && AllDigits(s[8..])
      && ParseYMD(s) == (t.year, t.month, t.day)
  {
    FormatIntRoundTrip(t.year, 4);
    assert Pow10(2) == 100;
    FormatIntRoundTrip(t.month, 2);
    FormatIntRoundTrip(t.day, 2);
    var y, m, d := FormatInt(t.year, 4), FormatInt(t.month, 2), FormatInt(t.day, 2);
    ConcatFive(y, "-", m, "-", d);
    var s := y + "-" + m + "-" + d;
    assert s[..4] == y && s[5..7] == m && s[8..] == d;
  }

  /** Two printable dates render alike exactly when they fall on the same day. */
  lemma YMDSameDay(t1: Time, t2: Time)
    requires PlainDate(t1) && PlainDate(t2)
    ensures ToYMDDate(t1) == ToYMDDate(t2) <==>
      (t1.year, t1.month, t1.day) == (t2.year, t2.month, t2.day)
  {
    YMDRoundTrip(t1);
    YMDRoundTrip(t2);
  }

  const Nils := "(nil)"

  /** (*shEnrollment).String(): the rendering used as an enrollment's identity when
      two enrollment lists are compared. */
  function EnrollmentString(e: Enrollment): string
  {
    Concat(["{UUID:", e.uuid, ",Organization:", e.organization, ",OrgID:", FormatInt(e.orgId, 0),
            ",From:", ToYMDDate(e.start), ",End:", ToYMDDate(e.end), ",ProjectSlug:",
            match e.projectSlug case Some(p) => p case None => Nils, "}"])
  }

  /** The rendering sees dates only to the day: moving an enrollment's dates within
      their days does not change its key. */
  lemma EnrollmentStringIgnoresTimeOfDay(e: Enrollment, start: Time, end: Time)
    requires (start.year, start.month, start.day) == (e.start.year, e.start.month, e.start.day)
    requires (end.year, end.month, end.day) == (e.end.year, e.end.month, e.end.day)
    ensures EnrollmentString(e.(start := start, end := end)) == EnrollmentString(e)
  {
  }

  /** comp2id and id2comp agree: every id of id2comp names an organization that
      comp2id maps back to that id, and every id of comp2id has a name in id2comp. */
  predicate Coherent(comp2id: map<string, int>, id2comp: map<int, string>)
  {
    (forall id :: id in id2comp ==> id2comp[id] in comp2id && comp2id[id2comp[id]] == id)
    && (forall n :: n in comp2id ==> comp2id[n] in id2comp)
  }
}
