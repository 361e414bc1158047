/**
 * The HEIF reader client (`HEIFReader`): a worker handle, an `initialised` flag, and one-shot reply listeners
 * on the worker that settle the promise of the call that added them. The worker's replies are input events.
 */
module Heic {
  import opened Wrappers

  // ---------------------------------------------------------------- the message protocol

  /** The message-type enum shared with the worker. */
  datatype MessageType = INIT | DECODE | FREE

  function Code(t: MessageType): (r: nat)
    ensures r <= 2
  {
    match t
    case INIT => 0
    case DECODE => 1
    case FREE => 2
  }

  /** The reverse mapping of the enum object: a number names at most one member. */
  function FromCode(n: int): (r: Option<MessageType>)
    ensures r.Some? <==> 0 <= n <= 2
  {
    if n == 0 then Some(INIT) else if n == 1 then Some(DECODE) else if n == 2 then Some(FREE) else None
  }

  lemma CodeRoundTrip(t: MessageType, n: int)
    ensures FromCode(Code(t)) == Some(t)
    ensures FromCode(n).Some? ==> Code(FromCode(n).value) == n
    ensures Code(INIT) == 0 && Code(DECODE) == 1 && Code(FREE) == 2
  {
  }

  /** One decoded image of a `DecodeResult` array (its pixel data left abstract). */
  datatype Image = Image(width: int, height: int, isPrimary: bool)

  /** What the client posts. */
  datatype Request = Request(kind: MessageType, payload: Option<seq<int>>)

  /** What the worker posts back: a raw `type` number, `success`, and the optional `error` and `payload`. */
  datatype Reply = Reply(msgType: int, success: bool, error: Option<string>, payload: Option<seq<Image>>)

  /** A promise a call returned. `Fulfilled(None)` is `init`'s `undefined`. */
  datatype Outcome = Pending | Fulfilled(value: Option<seq<Image>>) | Rejected(message: string)

  /** `new Error(h)` with `h` undefined has the empty message. */
  function ErrorText(reply: Reply): string {
    reply.error.GetOr("")
  }

  /** How the INIT listener settles its promise. */
  function InitOutcome(reply: Reply): Outcome {
    if reply.success then Fulfilled(None) else Rejected(ErrorText(reply))
  }

  /** How the DECODE listener settles its promise: only a successful reply with a payload fulfils it. */
  function DecodeOutcome(reply: Reply): Outcome {
    if reply.success && reply.payload.Some? then Fulfilled(reply.payload) else Rejected(ErrorText(reply))
  }

  const WorkerMissing: string := "Worker\U{672A}\U{521B}\U{5EFA}"
  const NotInitialised: string := "heif\U{672A}\U{521D}\U{59CB}\U{5316}"

  // ---------------------------------------------------------------- the worker

  /** A listener the client added: the promise it settles and the message type it waits for. */
  datatype Waiter = Waiter(ticket: nat, kind: MessageType)

  predicate Waits(ws: seq<Waiter>, ticket: nat) {
    exists i :: 0 <= i < |ws| && ws[i].ticket == ticket
  }

  function Drop(ws: seq<Waiter>, ticket: nat): (r: seq<Waiter>)
    ensures forall w :: w in r <==> w in ws && w.ticket != ticket
    ensures |r| <= |ws|
  {
    if ws == [] then [] else (if ws[0].ticket == ticket then [] else [ws[0]]) + Drop(ws[1..], ticket)
  }

  /** The listener a call has just added is the only one with its ticket, so removing it restores the list before. */
  lemma {:induction false} DropNewest(ws: seq<Waiter>, w: Waiter)
    requires forall i :: 0 <= i < |ws| ==> ws[i].ticket != w.ticket
    ensures Drop(ws + [w], w.ticket) == ws
  {
    if ws == [] {
      assert [w][1..] == [];
    } else {
      assert (ws + [w])[1..] == ws[1..] + [w];
      DropNewest(ws[1..], w);
      assert [ws[0]] + ws[1..] == ws;
    }
  }

  class Worker {
    var posted: seq<Request>
    var waiters: seq<Waiter>
    var terminated: bool

    constructor ()
      ensures posted == [] && waiters == [] && !terminated
    {
      posted := [];
      waiters := [];
      terminated := false;
    }

    method PostMessage(r: Request)
      modifies this
      ensures posted == old(posted) + [r] && waiters == old(waiters) && terminated == old(terminated)
    {
      posted := posted + [r];
    }

    method AddEventListener(w: Waiter)
      modifies this
      ensures waiters == old(waiters) + [w] && posted == old(posted) && terminated == old(terminated)
    {
      waiters := waiters + [w];
    }

    method RemoveEventListener(ticket: nat)
      modifies this
      ensures waiters == Drop(old(waiters), ticket) && posted == old(posted) && terminated == old(terminated)
    {
      waiters := Drop(waiters, ticket);
    }

    method Terminate()
      modifies this
      ensures terminated && posted == old(posted) && waiters == old(waiters)
    {
      terminated := true;
    }
  }

  // ---------------------------------------------------------------- the reader

  class HEIFReader {
    var worker: Worker?
    var initialised: bool
    /** Every promise `init` and `heifDecode` returned, indexed by ticket. */
    var outcomes: seq<Outcome>

    /**
     * `initialised` only with a worker; a live worker's listeners belong to pending promises and
     * wait for INIT or DECODE.
     */
    ghost predicate Valid()
      reads this, worker
    {
      (initialised ==> worker != null)
      && (worker != null ==>
            !worker.terminated
            && (forall i :: 0 <= i < |worker.waiters| ==>
                  worker.waiters[i].ticket < |outcomes| && outcomes[worker.waiters[i].ticket] == Pending
                  && worker.waiters[i].kind != FREE))
    }

    /** `new HEIFReader()`: the static `workPort` when one is set, otherwise a new worker. */
    constructor (workPort: Worker?)
      requires workPort != null ==> !workPort.terminated && workPort.waiters == []
      ensures Valid() && !initialised && outcomes == []
      ensures workPort != null ==> worker == workPort
      ensures workPort == null ==> fresh(worker) && worker.posted == [] && worker.waiters == []
    {
      if workPort != null {
        worker := workPort;
      } else {
        worker := new Worker();
      }
      initialised := false;
      outcomes := [];
    }

    /** `init()`: the returned promise is `outcomes[ticket]`. */
    method Init() returns (ticket: nat)
      requires Valid()
      modifies this, worker
      ensures Valid() && ticket == |old(outcomes)| && |outcomes| == ticket + 1
      ensures outcomes[..ticket] == old(outcomes) && worker == old(worker) && initialised == old(initialised)
      ensures old(initialised) ==> outcomes[ticket] == Fulfilled(None) && unchanged(worker)
      ensures !old(initialised) && worker == null ==> outcomes[ticket] == Rejected(WorkerMissing)
      ensures !old(initialised) && worker != null ==>
        outcomes[ticket] == Pending
        && worker.waiters == old(worker.waiters) + [Waiter(ticket, INIT)]
        && worker.posted == old(worker.posted) + [Request(INIT, None)]
    {
      ticket := |outcomes|;
      if initialised {
        outcomes := outcomes + [Fulfilled(None)];
      } else if worker == null {
        outcomes := outcomes + [Rejected(WorkerMissing)];
      } else {
        outcomes := outcomes + [Pending];
        worker.AddEventListener(Waiter(ticket, INIT));
        worker.PostMessage(Request(INIT, None));
      }
    }

    /**
     * `heifDecode(data)` for bytes already in memory. The two checks are in the order the code makes them;
     * the second only fails when a `free` ran while a Blob was being read.
     */
    method HeifDecode(data: seq<int>) returns (ticket: nat)
      modifies this, worker
      ensures ticket == |old(outcomes)| && |outcomes| == ticket + 1 && outcomes[..ticket] == old(outcomes)
      ensures worker == old(worker) && initialised == old(initialised)
      ensures !initialised ==> outcomes[ticket] == Rejected(NotInitialised) && (worker != null ==> unchanged(worker))
      ensures initialised && worker == null ==> outcomes[ticket] == Rejected(WorkerMissing)
      ensures initialised && worker != null ==>
        outcomes[ticket] == Pending
        && worker.waiters == old(worker.waiters) + [Waiter(ticket, DECODE)]
        && worker.posted == old(worker.posted) + [Request(DECODE, Some(data))]
      ensures old(Valid()) ==> Valid()
    {
      ticket := |outcomes|;
      if !initialised {
        outcomes := outcomes + [Rejected(NotInitialised)];
      } else if worker == null {
        outcomes := outcomes + [Rejected(WorkerMissing)];
      } else {
        outcomes := outcomes + [Pending];
        worker.AddEventListener(Waiter(ticket, DECODE));
        worker.PostMessage(Request(DECODE, Some(data)));
      }
    }

    /**
     * The listener of promise `ticket` receiving `reply`: a reply of another type leaves it registered; the awaited
     * type removes it and settles the promise, and a successful INIT sets `initialised`.
     */
    method OnMessage(k: nat, reply: Reply)
      requires Valid() && worker != null && k < |worker.waiters|
      modifies this, worker
      ensures Valid() && worker == old(worker) && worker.posted == old(worker.posted)
      ensures var w := old(worker.waiters[k]);
        if reply.msgType != Code(w.kind) then
          worker.waiters == old(worker.waiters) && outcomes == old(outcomes) && initialised == old(initialised)
        else
          worker.waiters == Drop(old(worker.waiters), w.ticket)
          && outcomes == old(outcomes)[w.ticket := if w.kind == INIT then InitOutcome(reply) else DecodeOutcome(reply)]
          && initialised == (old(initialised) || (w.kind == INIT && reply.success))
    {
      var w := worker.waiters[k];
      if reply.msgType == Code(w.kind) {
        worker.RemoveEventListener(w.ticket);
        if w.kind == INIT {
          if reply.success {
            initialised := true;
          }
          outcomes := outcomes[w.ticket := InitOutcome(reply)];
        } else {
          outcomes := outcomes[w.ticket := DecodeOutcome(reply)];
        }
        forall i | 0 <= i < |worker.waiters| ensures worker.waiters[i].ticket != w.ticket {
          assert worker.waiters[i] in Drop(old(worker.waiters), w.ticket);
        }
      }
    }

    /** `free()`: with a worker, post FREE, terminate it and clear both fields; without one, nothing. */
    method Free()
      requires Valid()
      modifies this, worker
      ensures Valid() && outcomes == old(outcomes)
      ensures old(worker) != null ==>
        worker == null && !initialised && old(worker).terminated
        && old(worker).posted == old(worker.posted) + [Request(FREE, None)]
      ensures old(worker) == null ==> worker == null && initialised == old(initialised)
    {
      if worker != null {
        worker.PostMessage(Request(FREE, None));
        worker.Terminate();
        worker := null;
        initialised := false;
      }
    }
  }

  // ---------------------------------------------------------------- a call and its reply

  /**
   * `await reader.init()` before any init succeeded, answered by the worker's INIT reply: the promise fulfils
   * exactly when the reply reports success, `initialised` then holds exactly when it fulfilled, a failure carries
   * the reply's `error` text, and the listener the call added is gone again.
   */
  method InitHandshake(r: HEIFReader, reply: Reply) returns (ticket: nat)
    requires r.Valid() && !r.initialised && r.worker != null && reply.msgType == Code(INIT)
    modifies r, r.worker
    ensures r.Valid() && r.worker == old(r.worker) && ticket == |old(r.outcomes)| && |r.outcomes| == ticket + 1
    ensures r.outcomes[..ticket] == old(r.outcomes) && r.worker.waiters == old(r.worker.waiters)
    ensures r.worker.posted == old(r.worker.posted) + [Request(INIT, None)]
    ensures r.outcomes[ticket].Fulfilled? <==> reply.success
    ensures r.initialised <==> r.outcomes[ticket].Fulfilled?
    ensures !reply.success ==> r.outcomes[ticket] == Rejected(reply.error.GetOr(""))
  {
    ghost var ws := r.worker.waiters;
    ticket := r.Init();
    DropNewest(ws, Waiter(ticket, INIT));
    r.OnMessage(|r.worker.waiters| - 1, reply);
  }

  /**
   * `await reader.heifDecode(bytes)` on an initialised reader, answered by the worker's DECODE reply: the promise
   * fulfils with the reply's images exactly when the reply reports success with a payload, and is otherwise
   * rejected with the reply's `error` text; `initialised` is kept and the call's listener is gone again.
   */
  method DecodeHandshake(r: HEIFReader, data: seq<int>, reply: Reply) returns (ticket: nat)
    requires r.Valid() && r.initialised && reply.msgType == Code(DECODE)
    modifies r, r.worker
    ensures r.Valid() && r.initialised && r.worker == old(r.worker) && ticket == |old(r.outcomes)|
    ensures |r.outcomes| == ticket + 1 && r.outcomes[..ticket] == old(r.outcomes)
    ensures r.worker.waiters == old(r.worker.waiters)
    ensures r.worker.posted == old(r.worker.posted) + [Request(DECODE, Some(data))]
    ensures r.outcomes[ticket].Fulfilled? <==> reply.success && reply.payload.Some?
    ensures r.outcomes[ticket].Fulfilled? ==> r.outcomes[ticket].value == reply.payload
    ensures !r.outcomes[ticket].Fulfilled? ==> r.outcomes[ticket] == Rejected(reply.error.GetOr(""))
  {
    ghost var ws := r.worker.waiters;
    ticket := r.HeifDecode(data);
    DropNewest(ws, Waiter(ticket, DECODE));
    r.OnMessage(|r.worker.waiters| - 1, reply);
  }
}
