/**
  The archive side of an export: the packets written to an archive session and
  the session itself (open mode, open/closed state, packet counter).
 */
module Archive {
  import opened Wrappers

  /** The constants of Session.Mode that an export uses. */
  datatype Mode = Write | Overwrite | UriEncoded | Plain

  /** The name Session.Mode gives each constant (Plain is the constant NONE). */
  function ModeName(m: Mode): string
  {
    match m
    case Write => "WRITE"
    case Overwrite => "OVERWRITE"
    case UriEncoded => "URI_ENCODED"
    case Plain => "NONE"
  }

  /** An ArchivePacket: the meta entries index, type, id and field, and one payload. */
  datatype Packet = Packet(index: string, typeName: string, id: Option<string>, field: Option<string>, payload: string)

  /** Document packets carry a field; settings, mapping and alias packets do not. */
  predicate AllDocuments(ps: seq<Packet>)
  {
    forall j :: 0 <= j < |ps| ==> ps[j].field.Some?
  }

  predicate AllMetadata(ps: seq<Packet>)
  {
    forall j :: 0 <= j < |ps| ==> ps[j].field.None?
  }

  /**
    What one step of an export writes: the packets in write order and, when the
    step threw part-way, the message of what it threw.
   */
  datatype Emission = Emission(packets: seq<Packet>, failure: Option<string>)
  {
    /** Run `next` after this step, unless this step threw. */
    function Then(next: Emission): (r: Emission)
      ensures failure.Some? ==> r == this
      ensures failure.None? ==> r.packets == packets + next.packets && r.failure == next.failure
    {
      if failure.Some? then this else Emission(packets + next.packets, next.failure)
    }
  }

  /** Writing `first` and then `next` after `base` leaves what `first.Then(next)` says, when `first` did not throw. */
  lemma AppendThen(base: seq<Packet>, first: Emission, next: Emission)
    requires first.failure.None?
    ensures (base + first.packets) + next.packets == base + first.Then(next).packets
  {
    assert (base + first.packets) + next.packets == base + (first.packets + next.packets);
  }

  /** How the file system answers ArchiveSession.open. */
  datatype OpenOutcome = Opened | Refused | Threw(message: string)

  /**
    An archive session: a sink for packets. `bulk` says that the session is an
    EsBulkSession. The counter counts every packet written.
   */
  class ArchiveSession {
    const path: string
    const bulk: bool
    var mode: set<Mode>
    var isOpen: bool
    var closed: bool
    var packets: seq<Packet>
    var packetCounter: nat

    ghost predicate Valid()
      reads this
    {
      packetCounter == |packets|
    }

    constructor (path: string, bulk: bool)
      ensures Valid()
      ensures this.path == path && this.bulk == bulk
      ensures mode == {} && !isOpen && !closed && packets == []
    {
      this.path := path;
      this.bulk := bulk;
      mode := {};
      isOpen := false;
      closed := false;
      packets := [];
      packetCounter := 0;
    }

    /** Opens the session with `mode`; `outcome` is the file system's answer. */
    method Open(mode: set<Mode>, outcome: OpenOutcome) returns (thrown: Option<string>)
      requires Valid()
      modifies this`mode, this`isOpen
      ensures Valid()
      ensures this.mode == mode
      ensures isOpen <==> outcome.Opened?
      ensures thrown == if outcome.Threw? then Some(outcome.message) else None
    {
      this.mode := mode;
      isOpen := outcome.Opened?;
      thrown := if outcome.Threw? then Some(outcome.message) else None;
    }

    method Write(p: Packet)
      requires Valid()
      modifies this`packets, this`packetCounter
      ensures Valid()
      ensures packets == old(packets) + [p]
      ensures packetCounter == old(packetCounter) + 1
    {
      packets := packets + [p];
      packetCounter := packetCounter + 1;
    }

    /** Closes the session; the state after a second close is the state after the first. */
    method Close()
      requires Valid()
      modifies this`isOpen, this`closed
      ensures Valid()
      ensures !isOpen && closed
    {
      isOpen := false;
      closed := true;
    }
  }
}
