/** The two closed class enumerations of the navaid file and their lookups
    (`NDB`, `VOR`, `ndb_code`, `vor_code`). Each lookup scans the members in
    declaration order for one whose value equals the raw code, and finds
    nothing, rather than failing, for any other code. */
module Classes {
  import opened Outcomes

  /** NDB class, formerly the reception range in nautical miles. */
  datatype NdbClass = Locator | LowPower | Normal | HighPower

  /** VOR class, formerly the reception range in nautical miles. */
  datatype VorClass = Terminal | LowAltitude | HighAltitude | Unspecified

  function NdbValue(c: NdbClass): int {
    match c
    case Locator => 15
    case LowPower => 25
    case Normal => 50
    case HighPower => 75
  }

  function NdbName(c: NdbClass): string {
    match c
    case Locator => "LOCATOR"
    case LowPower => "LOW_POWER"
    case Normal => "NORMAL"
    case HighPower => "HIGH_POWER"
  }

  function VorValue(c: VorClass): int {
    match c
    case Terminal => 25
    case LowAltitude => 40
    case HighAltitude => 130
    case Unspecified => 125
  }

  function VorName(c: VorClass): string {
    match c
    case Terminal => "TERMINAL"
    case LowAltitude => "LOW_ALTITUDE"
    case HighAltitude => "HIGH_ALTITUDE"
    case Unspecified => "UNSPECIFIED"
  }

  /** The members in declaration order, as iterating the enum yields them. */
  const NdbMembers: seq<NdbClass> := [Locator, LowPower, Normal, HighPower]
  const VorMembers: seq<VorClass> := [Terminal, LowAltitude, HighAltitude, Unspecified]

  /** The scan both lookups perform: the first member whose value is `n`. */
  function Lookup<T>(members: seq<T>, value: T -> int, n: int): (r: Option<T>)
    ensures r.Some? ==> r.value in members && value(r.value) == n
    ensures r.None? ==> forall i :: 0 <= i < |members| ==> value(members[i]) != n
    ensures forall i :: 0 <= i < |members| && value(members[i]) == n
                        && (forall j :: 0 <= j < i ==> value(members[j]) != n)
                        ==> r == Some(members[i])
  {
    if members == [] then None
    else if value(members[0]) == n then Some(members[0])
    else
      var r := Lookup(members[1..], value, n);
      assert forall i :: 1 <= i < |members| ==> members[i] == members[1..][i - 1];
      r
  }

  /** `ndb_code(n)`. */
  function NdbCode(n: int): (r: Option<NdbClass>)
    ensures r.Some? ==> NdbValue(r.value) == n
    ensures r.None? ==> forall c: NdbClass :: NdbValue(c) != n
  {
    var r := Lookup(NdbMembers, NdbValue, n);
    assert r.None? ==> NdbValue(NdbMembers[0]) != n && NdbValue(NdbMembers[1]) != n
                       && NdbValue(NdbMembers[2]) != n && NdbValue(NdbMembers[3]) != n;
    r
  }

  /** `vor_code(n)`. */
  function VorCode(n: int): (r: Option<VorClass>)
    ensures r.Some? ==> VorValue(r.value) == n
    ensures r.None? ==> forall c: VorClass :: VorValue(c) != n
  {
    var r := Lookup(VorMembers, VorValue, n);
    assert r.None? ==> VorValue(VorMembers[0]) != n && VorValue(VorMembers[1]) != n
                       && VorValue(VorMembers[2]) != n && VorValue(VorMembers[3]) != n;
    r
  }

  /** `ndb_class.name if ndb_class else None` after `ndb_code(n)`. */
  function NdbClassName(n: int): Option<string> {
    match NdbCode(n)
    case Some(c) => Some(NdbName(c))
    case None => None
  }

  /** `vor_class.name if vor_class else None` after `vor_code(n)`. */
  function VorClassName(n: int): Option<string> {
    match VorCode(n)
    case Some(c) => Some(VorName(c))
    case None => None
  }

  /** The NDB table: LOCATOR, LOW_POWER, NORMAL and HIGH_POWER for exactly
      15, 25, 50 and 75, nothing for every other code. */
  lemma NdbTable(n: int)
    ensures NdbCode(n) == (if n == 15 then Some(Locator)
                           else if n == 25 then Some(LowPower)
                           else if n == 50 then Some(Normal)
                           else if n == 75 then Some(HighPower)
                           else None)
    ensures NdbClassName(n) == (if n == 15 then Some("LOCATOR")
                                else if n == 25 then Some("LOW_POWER")
                                else if n == 50 then Some("NORMAL")
                                else if n == 75 then Some("HIGH_POWER")
                                else None)
  {
  }

  /** The VOR table: TERMINAL, LOW_ALTITUDE, HIGH_ALTITUDE and UNSPECIFIED for
      exactly 25, 40, 130 and 125, nothing for every other code. */
  lemma VorTable(n: int)
    ensures VorCode(n) == (if n == 25 then Some(Terminal)
                           else if n == 40 then Some(LowAltitude)
                           else if n == 130 then Some(HighAltitude)
                           else if n == 125 then Some(Unspecified)
                           else None)
    ensures VorClassName(n) == (if n == 25 then Some("TERMINAL")
                                else if n == 40 then Some("LOW_ALTITUDE")
                                else if n == 130 then Some("HIGH_ALTITUDE")
                                else if n == 125 then Some("UNSPECIFIED")
                                else None)
  {
  }
}
