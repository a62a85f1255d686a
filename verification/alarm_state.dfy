/**
 * The alarm-state vocabulary: the wire encoding of `AlarmState` and the
 * translation of the tokens an external (Eufy) alarm system pushes.
 */
module AlarmStates {
  import opened Options
  import opened Arduino

  datatype AlarmState = Unknown | Home | Away | Sleep | Alert | Schedule | Disarmed
  {
    /** The integer value of the enumerator, as sent to and from the bridge. */
    function Code(): (c: int)
      ensures -1 <= c <= 9
      ensures c == -1 <==> this == Unknown
    {
      match this
      case Unknown => -1
      case Home => 0
      case Away => 1
      case Sleep => 2
      case Alert => 3
      case Schedule => 8
      case Disarmed => 9
    }
  }

  /** The enumerator with a given encoding, if there is one. */
  function FromCode(c: int): (s: Option<AlarmState>)
    ensures s.Some? ==> s.value.Code() == c
  {
    if c == -1 then Some(Unknown)
    else if c == 0 then Some(Home)
    else if c == 1 then Some(Away)
    else if c == 2 then Some(Sleep)
    else if c == 3 then Some(Alert)
    else if c == 8 then Some(Schedule)
    else if c == 9 then Some(Disarmed)
    else None
  }

  /** Decoding the encoding of any enumerator gives it back: the encoding is injective. */
  lemma CodeRoundTrip(s: AlarmState)
    ensures FromCode(s.Code()) == Some(s)
  {
  }

  /** The external tokens and the states they stand for. */
  const EufyStateMapping: map<string, AlarmState> := map[
    "home" := Home,
    "away" := Away,
    "custom_1" := Sleep,
    "custom_2" := Alert,
    "schedule" := Schedule,
    "disarmed" := Disarmed
  ]

  /** `String::trim` at the back: drops the trailing whitespace. */
  function TrimEnd(s: string): (r: string)
    ensures |r| <= |s| && r == s[..|r|]
    ensures forall i :: |r| <= i < |s| ==> IsSpace(s[i])
    ensures r == [] || !IsSpace(r[|r| - 1])
  {
    if s != [] && IsSpace(s[|s| - 1]) then TrimEnd(s[..|s| - 1]) else s
  }

  /** `String::toLowerCase`. */
  function LowerCase(s: string): (r: string)
    ensures |r| == |s|
    ensures forall i :: 0 <= i < |s| ==> r[i] == ToLower(s[i])
  {
    seq(|s|, i requires 0 <= i < |s| => ToLower(s[i]))
  }

  /** `normalizeString`: `String::trim` (both ends), then lower-case. */
  function Normalize(s: string): (n: string)
    ensures |n| <= |s|
    ensures forall i :: 0 <= i < |n| ==> !IsUpper(n[i])
  {
    LowerCase(TrimEnd(TrimStart(s)))
  }

  /** The `find` in the token table, with `Unknown` standing for `end()`. */
  function Lookup(normalized: string): (state: AlarmState)
    ensures state == Unknown <==> normalized !in EufyStateMapping
    ensures state != Unknown ==> EufyStateMapping[normalized] == state
  {
    if normalized in EufyStateMapping then EufyStateMapping[normalized] else Unknown
  }

  /** `fromEufyState`: look the normalised token up; `Unknown` on a miss. */
  function FromEufyState(token: string): (state: AlarmState)
    ensures state == Unknown <==> Normalize(token) !in EufyStateMapping
  {
    Lookup(Normalize(token))
  }

  /** A normalised string has no surrounding whitespace and no capitals. */
  lemma NormalizeShape(s: string)
    ensures var n := Normalize(s);
      && (n == [] || (!IsSpace(n[0]) && !IsSpace(n[|n| - 1])))
      && forall i :: 0 <= i < |n| ==> !IsUpper(n[i])
  {
    var t := TrimEnd(TrimStart(s));
    var n := LowerCase(t);
    if t != [] {
      assert t[0] == TrimStart(s)[0];
      LowerKeepsSpace(t[0]);
      LowerKeepsSpace(t[|t| - 1]);
      assert n[0] == ToLower(t[0]) && n[|n| - 1] == ToLower(t[|t| - 1]);
    }
  }

  /** Lower-casing neither makes nor removes whitespace. */
  lemma LowerKeepsSpace(c: char)
    ensures IsSpace(ToLower(c)) == IsSpace(c)
  {
  }

  lemma {:induction false} TrimEndOfTrimmed(s: string)
    requires s == [] || !IsSpace(s[|s| - 1])
    ensures TrimEnd(s) == s
  {
  }

  /** Normalising twice is normalising once. */
  lemma NormalizeIdempotent(s: string)
    ensures Normalize(Normalize(s)) == Normalize(s)
  {
    var n := Normalize(s);
    NormalizeShape(s);
    TrimStartOfTrimmed(n);
    TrimEndOfTrimmed(n);
    assert LowerCase(n) == n;
  }

  /** The lookup only sees the normalised token: it ignores case and surrounding whitespace. */
  lemma FromEufyStateNormalizes(token: string)
    ensures FromEufyState(token) == FromEufyState(Normalize(token))
  {
    NormalizeIdempotent(token);
  }

  /** A token that is already lower case and trimmed is its own normal form. */
  lemma {:induction false} NormalOfNormal(s: string)
    requires s == [] || (!IsSpace(s[0]) && !IsSpace(s[|s| - 1]))
    requires forall i :: 0 <= i < |s| ==> !IsUpper(s[i])
    ensures Normalize(s) == s
  {
    TrimStartOfTrimmed(s);
    TrimEndOfTrimmed(s);
    assert LowerCase(s) == s;
  }

  lemma NormalTokenSelects(t: string)
    requires t == [] || (!IsSpace(t[0]) && !IsSpace(t[|t| - 1]))
    requires forall i :: 0 <= i < |t| ==> !IsUpper(t[i])
    ensures FromEufyState(t) == Lookup(t)
  {
    NormalOfNormal(t);
  }

  /**
   * Every key of the table is already in normal form, so each of the six
   * tokens ("home", "away", "custom_1", "custom_2", "schedule", "disarmed")
   * selects its own entry.
   */
  lemma EufyTokens(t: string)
    requires t in EufyStateMapping
    ensures FromEufyState(t) == EufyStateMapping[t]
  {
    if t == "home" { NormalTokenSelects("home"); }
    else if t == "away" { NormalTokenSelects("away"); }
    else if t == "custom_1" { NormalTokenSelects("custom_1"); }
    else if t == "custom_2" { NormalTokenSelects("custom_2"); }
    else if t == "schedule" { NormalTokenSelects("schedule"); }
    else { NormalTokenSelects("disarmed"); }
  }

  /** A token in capitals with a trailing blank still selects Home. */
  lemma EufyTokenCaseAndBlanks()
    ensures FromEufyState("HOME ") == Home
  {
    assert Normalize("HOME ") == "home" by {
      assert TrimStart("HOME ") == "HOME ";
      assert TrimEnd("HOME ") == "HOME";
      assert LowerCase("HOME") == "home";
    }
  }

  lemma LookupMiss(n: string)
    ensures Lookup(n) == Unknown <==> n !in {"home", "away", "custom_1", "custom_2", "schedule", "disarmed"}
    ensures Lookup(n) != Unknown ==> Lookup(n).Code() in {0, 1, 2, 3, 8, 9}
  {
  }

  /**
   * `Unknown` is returned exactly on a miss, and every hit is one of the six
   * states other than `Unknown`.
   */
  lemma FromEufyStateMiss(token: string)
    ensures FromEufyState(token) == Unknown
        <==> Normalize(token) !in {"home", "away", "custom_1", "custom_2", "schedule", "disarmed"}
    ensures FromEufyState(token) != Unknown ==> FromEufyState(token).Code() in {0, 1, 2, 3, 8, 9}
  {
    LookupMiss(Normalize(token));
  }

  lemma LookupInjective(n1: string, n2: string)
    requires Lookup(n1) != Unknown && Lookup(n1) == Lookup(n2)
    ensures n1 == n2
  {
  }

  /** Different recognised tokens select different states. */
  lemma EufyMappingInjective(t1: string, t2: string)
    requires FromEufyState(t1) != Unknown && FromEufyState(t1) == FromEufyState(t2)
    ensures Normalize(t1) == Normalize(t2)
  {
    LookupInjective(Normalize(t1), Normalize(t2));
  }
}
