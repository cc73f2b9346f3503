/** The live identity of each connector's session. */
module Registry {
  import opened Wrappers
  import opened Protocol

  /** `Attach` replaces only a strictly older process of the same tunnel. */
  function AttachRefusal(current: map<Id, SessionRef>, ref: SessionRef): Option<Code> {
    if !ref.Valid() then Some(InvalidInput)
    else if ref.connector !in current then None
    else if current[ref.connector].tunnel != ref.tunnel then Some(IdentityMismatch)
    else if ref.process <= current[ref.connector].process then Some(SessionConflict)
    else None
  }

  predicate Names(current: map<Id, SessionRef>, ref: SessionRef) {
    ref.connector in current && current[ref.connector] == ref
  }

  /** The registry after `ref` disconnects: only an exact match is removed. */
  function Without(current: map<Id, SessionRef>, ref: SessionRef): map<Id, SessionRef> {
    if Names(current, ref) then current - {ref.connector} else current
  }

  class SessionRegistry {
    var current: map<Id, SessionRef>

    /** Every entry stands under its own connector. */
    ghost predicate Valid()
      reads this
    {
      forall c :: c in current ==> current[c].connector == c
    }

    constructor ()
      ensures Valid() && current == map[]
    {
      current := map[];
    }

    method Attach(ref: SessionRef) returns (out: Outcome<Option<SessionRef>>)
      requires Valid()
      modifies this
      ensures Valid()
      ensures var refusal := AttachRefusal(old(current), ref);
              if refusal.Some? then out == Err(refusal.value) && current == old(current)
              else
                && current == old(current)[ref.connector := ref]
                && out == Ok(if ref.connector in old(current) then Some(old(current)[ref.connector]) else None)
      ensures out.Ok? <==>
              && ref.Valid()
              && (ref.connector in old(current) ==>
                    && old(current)[ref.connector].tunnel == ref.tunnel
                    && old(current)[ref.connector].process < ref.process)
    {
      if !ref.Valid() {
        return Err(InvalidInput);
      }
      var previous: Option<SessionRef> := None;
      if ref.connector in current {
        previous := Some(current[ref.connector]);
        if previous.value.tunnel != ref.tunnel {
          return Err(IdentityMismatch);
        }
        if ref.process <= previous.value.process {
          return Err(SessionConflict);
        }
      }
      current := current[ref.connector := ref];
      out := Ok(previous);
    }

    /** A stale close from an older process can never remove a newer session. */
    method Disconnect(ref: SessionRef) returns (out: Outcome<()>)
      requires Valid()
      modifies this
      ensures Valid()
      ensures current == if ref.Valid() then Without(old(current), ref) else old(current)
      ensures forall c | c in old(current) && old(current)[c] != ref :: c in current && current[c] == old(current)[c]
      ensures out == if !ref.Valid() then Err(InvalidInput)
                     else if ref.connector in old(current) && old(current)[ref.connector] != ref then Err(StaleSession)
                     else Ok(())
    {
      if !ref.Valid() {
        return Err(InvalidInput);
      }
      if ref.connector !in current {
        return Ok(());
      }
      if current[ref.connector] != ref {
        return Err(StaleSession);
      }
      current := current - {ref.connector};
      out := Ok(());
    }

    method Active(connector: Id) returns (ref: Option<SessionRef>)
      requires Valid()
      ensures ref.Some? ==> ref.value.connector == connector
      ensures ref == if ValidIdentifier(connector) && connector in current then Some(current[connector]) else None
    {
      if !ValidIdentifier(connector) || connector !in current {
        return None;
      }
      ref := Some(current[connector]);
    }
  }
}
