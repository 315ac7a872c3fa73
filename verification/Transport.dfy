/**
 The byte pipe under HTTP, reduced to what the reader above it can observe: every `Recv` returns some
 bytes, reports that the timeout elapsed, or reports that the connection is gone.
 */
module Transports {
  import opened Bytes

  datatype RecvEvent = Data(data: bytes) | Timeout

  /** What one connection will do: the outcomes of its `Recv` calls in order, after which it is closed,
      and how many `SendAll` calls succeed before one fails. */
  datatype Connection = Connection(incoming: seq<RecvEvent>, sends: nat)

  datatype Dial = Refused | Accepted(connection: Connection)

  /** What the HTTP layer did with its transport, in order. */
  datatype Op = Dialed(outcome: Dial) | Sent(request: bytes, ok: bool) | HeadRead | HungUp

  /** The size of the buffer each `Recv` fills. */
  const RECV_SIZE: nat := 4096

  ghost predicate ValidScript(script: seq<RecvEvent>) {
    forall i | 0 <= i < |script| :: script[i].Data? ==> 0 < |script[i].data| <= RECV_SIZE
  }

  ghost predicate ValidDials(dials: seq<Dial>) {
    forall i | 0 <= i < |dials| :: dials[i].Accepted? ==> ValidScript(dials[i].connection.incoming)
  }

  /** All the bytes a script delivers, however it cuts them up. */
  ghost function Flat(script: seq<RecvEvent>): bytes {
    if script == [] then []
    else (if script[0].Data? then script[0].data else []) + Flat(script[1..])
  }

  ghost function Timeouts(script: seq<RecvEvent>): nat {
    if script == [] then 0 else (if script[0].Timeout? then 1 else 0) + Timeouts(script[1..])
  }

  /** The bytes a script delivers before its next timeout. */
  ghost function Prompt(script: seq<RecvEvent>): bytes {
    if script == [] || script[0].Timeout? then [] else script[0].data + Prompt(script[1..])
  }

  /** The bytes it delivers after that. */
  ghost function Late(script: seq<RecvEvent>): bytes {
    if script == [] then [] else if script[0].Timeout? then Flat(script[1..]) else Late(script[1..])
  }

  lemma {:induction false} PromptThenLate(script: seq<RecvEvent>)
    ensures Flat(script) == Prompt(script) + Late(script)
    ensures Timeouts(script) == 0 ==> Late(script) == []
    decreases |script|
  {
    if script != [] {
      PromptThenLate(script[1..]);
      if script[0].Data? {
        assert script[0].data + (Prompt(script[1..]) + Late(script[1..]))
            == script[0].data + Prompt(script[1..]) + Late(script[1..]);
      }
    }
  }

  /** One `Recv` of a script. */
  lemma NextEvent(script: seq<RecvEvent>)
    requires script != []
    ensures var rest := script[1..];
            match script[0]
            case Data(data) =>
              && Flat(script) == data + Flat(rest) && Timeouts(script) == Timeouts(rest)
              && Prompt(script) == data + Prompt(rest) && Late(script) == Late(rest)
            case Timeout =>
              && Flat(script) == Flat(rest) && Timeouts(script) == 1 + Timeouts(rest)
              && Prompt(script) == [] && Late(script) == Flat(rest)
  {
    assert [] + Flat(script[1..]) == Flat(script[1..]);
  }

  lemma NoEvent()
    ensures Flat([]) == Prompt([]) == Late([]) == [] && Timeouts([]) == 0
  {
  }

  function NextDial(dials: seq<Dial>): Dial {
    if dials == [] then Refused else dials[0]
  }

  /** The bytes the next connection delivers; none if its dial is refused. */
  ghost function NextWire(dials: seq<Dial>): bytes {
    match NextDial(dials)
    case Refused => []
    case Accepted(connection) => Flat(connection.incoming)
  }

  class Transport {
    var open: bool
    var incoming: seq<RecvEvent>
    var sends: nat
    /** The outcomes of the `Connect` calls still to come; past the end, every one is refused. */
    var dials: seq<Dial>
    ghost var log: seq<Op>

    ghost predicate Valid()
      reads this
    {
      ValidScript(incoming) && ValidDials(dials) && (!open ==> incoming == [])
    }

    constructor (dials: seq<Dial>)
      requires ValidDials(dials)
      ensures Valid() && !open && this.dials == dials && log == []
    {
      open, incoming, sends := false, [], 0;
      this.dials := dials;
      log := [];
    }

    method Connect() returns (ok: bool)
      requires Valid()
      modifies this
      ensures Valid() && ok == open
      ensures var outcome := NextDial(old(dials));
              && log == old(log) + [Dialed(outcome)]
              && dials == (if old(dials) == [] then [] else old(dials)[1..])
              && ok == outcome.Accepted?
              && (ok ==> incoming == outcome.connection.incoming && sends == outcome.connection.sends)
              && (!ok ==> incoming == [])
    {
      open, incoming := false, [];
      ghost var outcome := NextDial(dials);
      if dials != [] {
        if dials[0].Accepted? {
          open, incoming, sends := true, dials[0].connection.incoming, dials[0].connection.sends;
        }
        dials := dials[1..];
      }
      log := log + [Dialed(outcome)];
      ok := open;
    }

    method SendAll(request: bytes) returns (ok: bool)
      requires Valid()
      modifies this`sends, this`log
      ensures Valid() && ok == (old(sends) > 0)
      ensures ok ==> sends == old(sends) - 1
      ensures log == old(log) + [Sent(request, ok)]
    {
      ok := sends > 0;
      if ok {
        sends := sends - 1;
      }
      log := log + [Sent(request, ok)];
    }

    method Recv() returns (n: int, chunk: bytes)
      requires Valid()
      modifies this`incoming
      ensures Valid()
      ensures n < 0 ==> old(incoming) == [] && incoming == []
      ensures n == 0 ==> old(incoming) != [] && old(incoming)[0].Timeout? && incoming == old(incoming)[1..]
      ensures n > 0 ==> old(incoming) != [] && old(incoming)[0] == Data(chunk) && incoming == old(incoming)[1..]
      ensures n == |chunk| || (n == -1 && chunk == [])
    {
      if incoming == [] {
        return -1, [];
      }
      match incoming[0] {
        case Timeout =>
          n, chunk := 0, [];
        case Data(data) =>
          n, chunk := |data|, data;
      }
      incoming := incoming[1..];
    }

    method Close()
      requires Valid()
      modifies this
      ensures Valid() && !open && incoming == [] && dials == old(dials)
      ensures log == old(log) + [HungUp]
    {
      open, incoming := false, [];
      log := log + [HungUp];
    }
  }
}
