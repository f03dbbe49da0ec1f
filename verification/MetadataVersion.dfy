/** Versions of metadata rows: safe integers that every mutation raises. */
module MetadataVersion {
  import opened Wrappers

  const MaxSafe: nat := 9007199254740991

  /** A reading of the clock. */
  type Instant = n: nat | n <= MaxSafe

  datatype VersionError = VersionOverflow

  /** The next version of one row, given its current one and the clock. */
  function NextMetadataUpdatedAt(current: nat, now: Instant): (r: Result<nat, VersionError>)
    ensures r.Ok? <==> current < MaxSafe
    ensures r.Ok? ==> current < r.value <= MaxSafe && now <= r.value && (r.value == now || r.value == current + 1)
  {
    if current >= MaxSafe then Err(VersionOverflow)
    else Ok(if now <= current then current + 1 else now)
  }

  /** One version for a whole batch, above every current one. */
  method NextMetadataBatchUpdatedAt(currents: seq<nat>, now: Instant) returns (r: Result<nat, VersionError>)
    ensures r.Ok? <==> forall i | 0 <= i < |currents| :: currents[i] < MaxSafe
    ensures r.Ok? ==> now <= r.value <= MaxSafe && forall i | 0 <= i < |currents| :: currents[i] < r.value
    ensures r.Ok? && r.value > now ==>
              (r.value == 1 && forall i | 0 <= i < |currents| :: currents[i] == 0) || r.value - 1 in currents
  {
    var maximum := 0;
    for i := 0 to |currents|
      invariant forall j | 0 <= j < i :: currents[j] <= maximum && currents[j] < MaxSafe
      invariant (maximum == 0 || maximum in currents) && maximum < MaxSafe
    {
      if currents[i] >= MaxSafe {
        return Err(VersionOverflow);
      }
      maximum := if maximum < currents[i] then currents[i] else maximum;
    }
    r := Ok(if now <= maximum then maximum + 1 else now);
  }

  /** Exactly the documents in `which` have a new version, above their old one,
      the clock's or the next one. */
  ghost predicate Risen<D>(was: map<D, nat>, now: map<D, nat>, which: set<D>, clock: Instant) {
    && now.Keys == was.Keys
    && (forall d | d in was && d in which ::
          was[d] < now[d] <= MaxSafe && clock <= now[d] && (now[d] == clock || now[d] == was[d] + 1))
    && forall d | d in was && d !in which :: now[d] == was[d]
  }
}
