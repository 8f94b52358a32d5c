/**
 * The throttler manager: the registry mapping naked peer addresses to throttle
 * directives, and the table of live associations per naked address. Replies, asks and
 * messages to throttler actors are returned as effects rather than sent.
 */
module ThrottlerManagers {
  import opened Wrappers
  import opened ThrottleModes
  import opened TransportTypes
  import opened ThrottlerHandles

  /** One live association: the naked address of its peer and its handle. */
  datatype Row = Row(address: Address, handle: ThrottlerHandle)

  datatype Effect =
    /** Hand a new inbound handle to its throttler actor. */
    | TellHandle(actor: ActorId, handle: ThrottlerHandle)
    /** Once the upstream listener is known, give it and the inbound mode to the actor. */
    | PipeListenerAndMode(actor: ActorId, mode: ThrottleMode)
    /** Complete the pending outbound association with the wrapped handle. */
    | CompleteAssociation(handle: ThrottlerHandle)
    /** Ask a throttler actor to switch its inbound mode; completes on ack, death or timeout. */
    | AskMode(actor: ActorId, mode: ThrottleMode)
    /** Reply SetThrottleAck to the sender once every AskMode before it has completed. */
    | ReplySetThrottleAck
    /** Stop a throttler actor (the handle's Disassociate). */
    | Disassociate(actor: ActorId)
    /** Make a throttler actor fail its upstream listener with a reason and stop. */
    | DisassociateWithFailure(actor: ActorId, reason: DisassociateInfo)
    /** Reply ForceDisassociateAck to the sender. */
    | ReplyForceDisassociateAck

  /** The rows of `table` for `naked`, in table order. */
  function Matching(table: seq<Row>, naked: Address): (rows: seq<Row>)
    decreases |table|
  {
    if table == [] then []
    else
      var last := table[|table| - 1];
      Matching(table[..|table| - 1], naked) + (if last.address == naked then [last] else [])
  }

  /** The rows of `table` for every other address, in table order. */
  function Remaining(table: seq<Row>, naked: Address): (rows: seq<Row>)
    decreases |table|
  {
    if table == [] then []
    else
      var last := table[|table| - 1];
      Remaining(table[..|table| - 1], naked) + (if last.address != naked then [last] else [])
  }

  /** The handles of the rows for `naked`: the only handles a SetThrottle may touch. */
  function HandlesOf(table: seq<Row>, naked: Address): set<ThrottlerHandle> {
    set r | r in table && r.address == naked :: r.handle
  }

  /** What SetMode yields for one handle: an ask when the directive governs receiving. */
  function AskFor(handle: ThrottlerHandle, mode: ThrottleMode, direction: Direction): seq<Effect> {
    if direction.GovernsReceive() then [AskMode(handle.throttlerActor, mode)] else []
  }

  /** The asks SetThrottle sends, one per row for `naked` when receiving is governed. */
  function AskEffects(table: seq<Row>, naked: Address, mode: ThrottleMode, direction: Direction): seq<Effect>
    decreases |table|
  {
    if table == [] then []
    else
      var last := table[|table| - 1];
      AskEffects(table[..|table| - 1], naked, mode, direction)
      + (if last.address == naked then AskFor(last.handle, mode, direction) else [])
  }

  /** One Disassociate per row, in order. */
  function DisassociateEffects(rows: seq<Row>): seq<Effect>
    decreases |rows|
  {
    if rows == [] then []
    else DisassociateEffects(rows[..|rows| - 1]) + [Disassociate(rows[|rows| - 1].handle.throttlerActor)]
  }

  /** One DisassociateWithFailure per row, in order. */
  function FailureEffects(rows: seq<Row>, reason: DisassociateInfo): seq<Effect>
    decreases |rows|
  {
    if rows == [] then []
    else
      var last := rows[|rows| - 1];
      FailureEffects(rows[..|rows| - 1], reason) + [DisassociateWithFailure(last.handle.throttlerActor, reason)]
  }

  // ----------------------------------------------------------------------------------
  // Properties of the partition of the handle table by address

  /**
   * A forced disassociation splits the table exactly: the removed rows are those for the
   * address, the kept rows are all the others, and no row is lost or duplicated.
   */
  lemma {:induction false} PartitionByAddress(table: seq<Row>, naked: Address)
    ensures |Matching(table, naked)| + |Remaining(table, naked)| == |table|
    ensures multiset(Matching(table, naked)) + multiset(Remaining(table, naked)) == multiset(table)
    ensures forall r :: r in Remaining(table, naked) <==> r in table && r.address != naked
    ensures forall r :: r in Matching(table, naked) <==> r in table && r.address == naked
    decreases |table|
  {
    if table != [] {
      var init, last := table[..|table| - 1], table[|table| - 1];
      PartitionByAddress(init, naked);
      assert table == init + [last];
    }
  }

  /** Removal keeps the other rows in their order: it distributes over concatenation. */
  lemma {:induction false} RemainingConcat(a: seq<Row>, b: seq<Row>, naked: Address)
    ensures Remaining(a + b, naked) == Remaining(a, naked) + Remaining(b, naked)
    decreases |b|
  {
    if b == [] {
      assert a + b == a;
    } else {
      var init, last := b[..|b| - 1], b[|b| - 1];
      assert (a + b)[..|a + b| - 1] == a + init;
      RemainingConcat(a, init, naked);
    }
  }

  /** A table without rows for the address is left exactly as it is. */
  lemma {:induction false} RemainingUntouched(table: seq<Row>, naked: Address)
    requires forall k :: 0 <= k < |table| ==> table[k].address != naked
    ensures Remaining(table, naked) == table
    ensures Matching(table, naked) == []
    decreases |table|
  {
    if table != [] {
      var init := table[..|table| - 1];
      RemainingUntouched(init, naked);
      assert table == init + [table[|table| - 1]];
    }
  }

  lemma AskEffectsStep(table: seq<Row>, i: nat, naked: Address, mode: ThrottleMode, direction: Direction)
    requires i < |table|
    ensures AskEffects(table[..i + 1], naked, mode, direction)
      == AskEffects(table[..i], naked, mode, direction)
         + (if table[i].address == naked then AskFor(table[i].handle, mode, direction) else [])
  {
    assert table[..i + 1][..i] == table[..i];
  }

  lemma DisassociateEffectsAppend(rows: seq<Row>, row: Row)
    ensures DisassociateEffects(rows + [row]) == DisassociateEffects(rows) + [Disassociate(row.handle.throttlerActor)]
  {
    assert (rows + [row])[..|rows|] == rows;
  }

  lemma FailureEffectsAppend(rows: seq<Row>, row: Row, reason: DisassociateInfo)
    ensures FailureEffects(rows + [row], reason)
      == FailureEffects(rows, reason) + [DisassociateWithFailure(row.handle.throttlerActor, reason)]
  {
    assert (rows + [row])[..|rows|] == rows;
  }

  lemma MatchingStep(table: seq<Row>, i: nat, naked: Address)
    requires i < |table|
    ensures Matching(table[..i + 1], naked)
      == Matching(table[..i], naked) + (if table[i].address == naked then [table[i]] else [])
  {
    assert table[..i + 1][..i] == table[..i];
  }

  class ThrottlerManager {
    /** The directive for each naked address. */
    var throttlingModes: map<Address, (ThrottleMode, Direction)>
    /** The live associations, in the order they were registered. */
    var handleTable: seq<Row>

    constructor ()
      ensures throttlingModes == map[] && handleTable == []
    {
      throttlingModes := map[];
      handleTable := [];
    }

    /** The inbound mode for a naked address: the stored one only if it governs receiving. */
    function GetInboundMode(nakedAddress: Address): (m: ThrottleMode)
      reads this
      ensures nakedAddress !in throttlingModes ==> m == Unthrottled
      ensures nakedAddress in throttlingModes ==>
        match throttlingModes[nakedAddress].1
        case Receive => m == throttlingModes[nakedAddress].0
        case Both => m == throttlingModes[nakedAddress].0
        case Send => m == Unthrottled
    {
      if nakedAddress in throttlingModes && throttlingModes[nakedAddress].1.GovernsReceive()
      then throttlingModes[nakedAddress].0
      else Unthrottled
    }

    /** The outbound mode for a naked address: the stored one only if it governs sending. */
    function GetOutboundMode(nakedAddress: Address): (m: ThrottleMode)
      reads this
      ensures nakedAddress !in throttlingModes ==> m == Unthrottled
      ensures nakedAddress in throttlingModes ==>
        match throttlingModes[nakedAddress].1
        case Send => m == throttlingModes[nakedAddress].0
        case Both => m == throttlingModes[nakedAddress].0
        case Receive => m == Unthrottled
    {
      if nakedAddress in throttlingModes && throttlingModes[nakedAddress].1.GovernsSend()
      then throttlingModes[nakedAddress].0
      else Unthrottled
    }

    /** The directive a newly checked-in handle gets: the stored one, or unthrottled both ways. */
    function DirectiveFor(nakedAddress: Address): (ThrottleMode, Direction)
      reads this
    {
      if nakedAddress in throttlingModes then throttlingModes[nakedAddress] else (Unthrottled, Both)
    }

    /**
     * Applies a mode to one handle: the outbound cell is set only for Send/Both, and the
     * throttler actor is asked only for Receive/Both.
     */
    static method SetMode(handle: ThrottlerHandle, mode: ThrottleMode, direction: Direction)
      returns (effects: seq<Effect>)
      modifies handle`outboundThrottleMode
      ensures handle.outboundThrottleMode ==
        if direction.GovernsSend() then mode else old(handle.outboundThrottleMode)
      ensures effects == AskFor(handle, mode, direction)
    {
      if direction.GovernsSend() {
        handle.outboundThrottleMode := mode;
      }
      if direction.GovernsReceive() {
        effects := [AskMode(handle.throttlerActor, mode)];
      } else {
        effects := [];
      }
    }

    /**
     * SetThrottle: overwrites the directive of the naked address, applies the mode to
     * every live association with that address (and to no other), and replies once
     * every ask has completed.
     */
    method SetThrottle(address: Address, direction: Direction, mode: ThrottleMode)
      returns (effects: seq<Effect>)
      modifies this`throttlingModes, HandlesOf(handleTable, NakedAddress(address))
      ensures var naked := NakedAddress(address);
        && throttlingModes == old(throttlingModes)[naked := (mode, direction)]
        && handleTable == old(handleTable)
        && effects == AskEffects(handleTable, naked, mode, direction) + [ReplySetThrottleAck]
        && (direction.GovernsSend() ==> forall r :: r in handleTable && r.address == naked ==>
              r.handle.outboundThrottleMode == mode)
        && (!direction.GovernsSend() ==> forall r :: r in handleTable ==>
              r.handle.outboundThrottleMode == old(r.handle.outboundThrottleMode))
      ensures forall r :: r in handleTable && r.handle !in HandlesOf(handleTable, NakedAddress(address)) ==>
        r.handle.outboundThrottleMode == old(r.handle.outboundThrottleMode)
      ensures forall b :: b != NakedAddress(address) ==>
        GetInboundMode(b) == old(GetInboundMode(b)) && GetOutboundMode(b) == old(GetOutboundMode(b))
    {
      var naked := NakedAddress(address);
      throttlingModes := throttlingModes[naked := (mode, direction)];
      effects := [];
      var i := 0;
      while i < |handleTable|
        invariant 0 <= i <= |handleTable|
        invariant handleTable == old(handleTable)
        invariant throttlingModes == old(throttlingModes)[naked := (mode, direction)]
        invariant forall r :: r in handleTable && r.handle !in HandlesOf(handleTable, naked) ==>
          r.handle.outboundThrottleMode == old(r.handle.outboundThrottleMode)
        invariant effects == AskEffects(handleTable[..i], naked, mode, direction)
        invariant direction.GovernsSend() ==>
          forall j :: 0 <= j < i && handleTable[j].address == naked ==> handleTable[j].handle.outboundThrottleMode == mode
        invariant !direction.GovernsSend() ==>
          forall r :: r in handleTable ==> r.handle.outboundThrottleMode == old(r.handle.outboundThrottleMode)
      {
        var row := handleTable[i];
        AskEffectsStep(handleTable, i, naked, mode, direction);
        if row.address == naked {
          var asked := SetMode(row.handle, mode, direction);
          effects := effects + asked;
        }
        i := i + 1;
      }
      assert handleTable[..i] == handleTable;
      effects := effects + [ReplySetThrottleAck];
    }

    /**
     * ForceDisassociate: stops every association with the naked address, removes exactly
     * their rows (the others stay, in order) and always acknowledges.
     */
    method ForceDisassociate(address: Address) returns (effects: seq<Effect>)
      modifies this`handleTable
      ensures handleTable == Remaining(old(handleTable), NakedAddress(address))
      ensures effects == DisassociateEffects(Matching(old(handleTable), NakedAddress(address)))
        + [ReplyForceDisassociateAck]
    {
      var naked := NakedAddress(address);
      effects := [];
      var i := 0;
      while i < |handleTable|
        invariant 0 <= i <= |handleTable|
        invariant handleTable == old(handleTable)
        invariant effects == DisassociateEffects(Matching(handleTable[..i], naked))
      {
        MatchingStep(handleTable, i, naked);
        if handleTable[i].address == naked {
          DisassociateEffectsAppend(Matching(handleTable[..i], naked), handleTable[i]);
          effects := effects + [Disassociate(handleTable[i].handle.throttlerActor)];
        } else {
          assert Matching(handleTable[..i + 1], naked) == Matching(handleTable[..i], naked);
        }
        i := i + 1;
      }
      assert handleTable[..i] == handleTable;
      handleTable := Remaining(handleTable, naked);
      effects := effects + [ReplyForceDisassociateAck];
    }

    /**
     * ForceDisassociateExplicitly: as ForceDisassociate, but each association is failed
     * with the given reason.
     */
    method ForceDisassociateExplicitly(address: Address, reason: DisassociateInfo)
      returns (effects: seq<Effect>)
      modifies this`handleTable
      ensures handleTable == Remaining(old(handleTable), NakedAddress(address))
      ensures effects == FailureEffects(Matching(old(handleTable), NakedAddress(address)), reason)
        + [ReplyForceDisassociateAck]
    {
      var naked := NakedAddress(address);
      effects := [];
      var i := 0;
      while i < |handleTable|
        invariant 0 <= i <= |handleTable|
        invariant handleTable == old(handleTable)
        invariant effects == FailureEffects(Matching(handleTable[..i], naked), reason)
      {
        MatchingStep(handleTable, i, naked);
        if handleTable[i].address == naked {
          FailureEffectsAppend(Matching(handleTable[..i], naked), handleTable[i], reason);
          effects := effects + [DisassociateWithFailure(handleTable[i].handle.throttlerActor, reason)];
        } else {
          assert Matching(handleTable[..i + 1], naked) == Matching(handleTable[..i], naked);
        }
        i := i + 1;
      }
      assert handleTable[..i] == handleTable;
      handleTable := Remaining(handleTable, naked);
      effects := effects + [ReplyForceDisassociateAck];
    }

    /**
     * Checkin: an inbound association has learnt its peer's address. Its row is added and
     * the current directive (unthrottled both ways when there is none) is applied.
     */
    method Checkin(origin: Address, handle: ThrottlerHandle) returns (effects: seq<Effect>)
      modifies this`handleTable, handle`outboundThrottleMode
      ensures handleTable == old(handleTable) + [Row(NakedAddress(origin), handle)]
      ensures var (mode, direction) := DirectiveFor(NakedAddress(origin));
        && handle.outboundThrottleMode ==
             (if direction.GovernsSend() then mode else old(handle.outboundThrottleMode))
        && effects == AskFor(handle, mode, direction)
    {
      var naked := NakedAddress(origin);
      handleTable := handleTable + [Row(naked, handle)];
      var (mode, direction) := DirectiveFor(naked);
      effects := SetMode(handle, mode, direction);
    }

    /**
     * AssociateResult: an outbound association has been established. A new handle gets
     * the outbound mode of the peer, its actor will receive the inbound mode with the
     * listener, and the row is registered.
     */
    method AssociateResult(remoteAddress: Address, throttlerActor: ActorId)
      returns (handle: ThrottlerHandle, effects: seq<Effect>)
      modifies this`handleTable
      ensures fresh(handle) && handle.throttlerActor == throttlerActor
      ensures handle.outboundThrottleMode == GetOutboundMode(NakedAddress(remoteAddress))
      ensures handleTable == old(handleTable) + [Row(NakedAddress(remoteAddress), handle)]
      ensures effects == [PipeListenerAndMode(throttlerActor, GetInboundMode(NakedAddress(remoteAddress))),
                          CompleteAssociation(handle)]
    {
      handle := new ThrottlerHandle(throttlerActor);
      var naked := NakedAddress(remoteAddress);
      var inMode := GetInboundMode(naked);
      handle.outboundThrottleMode := GetOutboundMode(naked);
      effects := [PipeListenerAndMode(throttlerActor, inMode)];
      handleTable := handleTable + [Row(naked, handle)];
      effects := effects + [CompleteAssociation(handle)];
    }

    /**
     * InboundAssociation: a new inbound association gets a handle (unthrottled until its
     * peer checks in), which is handed to its throttler actor; the table is unchanged.
     */
    method InboundAssociation(throttlerActor: ActorId) returns (handle: ThrottlerHandle, effects: seq<Effect>)
      ensures fresh(handle) && handle.throttlerActor == throttlerActor
      ensures handle.outboundThrottleMode == Unthrottled
      ensures effects == [TellHandle(throttlerActor, handle)]
    {
      handle := new ThrottlerHandle(throttlerActor);
      effects := [TellHandle(throttlerActor, handle)];
    }
  }

  /**
   * Direction filtering: a stored directive reaches the inbound side only for Receive and
   * Both, the outbound side only for Send and Both; the other side stays unthrottled.
   */
  lemma DirectionFiltering(m: ThrottlerManager, naked: Address)
    requires naked in m.throttlingModes
    ensures var (mode, direction) := m.throttlingModes[naked];
      && (direction == Both ==> m.GetInboundMode(naked) == mode && m.GetOutboundMode(naked) == mode)
      && (direction == Send ==> m.GetInboundMode(naked) == Unthrottled && m.GetOutboundMode(naked) == mode)
      && (direction == Receive ==> m.GetInboundMode(naked) == mode && m.GetOutboundMode(naked) == Unthrottled)
  {
  }

  /** Without a directive both sides are unthrottled. */
  lemma NoDirectiveMeansUnthrottled(m: ThrottlerManager, naked: Address)
    requires naked !in m.throttlingModes
    ensures m.GetInboundMode(naked) == Unthrottled && m.GetOutboundMode(naked) == Unthrottled
  {
  }
}
