/** The calls a client makes on one connection, as the caller sees them: what it asked for, and
    whether it got a reply. */
module ClientCalls {
  import opened Frames
  import opened Options

  datatype Request = Request(service: Frame, body: Msg)

  /** A call begins, returns NULL, returns a reply, or fails an assertion on what it received. */
  datatype CallEvent = Asked(r: Request) | GaveUp | Served | Crashed

  /** The request of the call going on. */
  function Current(log: seq<CallEvent>): Option<Request> {
    if log != [] && log[|log| - 1].Asked? then Some(log[|log| - 1].r) else None
  }

  /** The client may begin a call. */
  predicate AtLeisure(log: seq<CallEvent>) {
    log == [] || log[|log| - 1] == GaveUp || log[|log| - 1] == Served
  }

  /** The request the connection still owes a reply to: that of the first call since the last reply. */
  function Owing(log: seq<CallEvent>): Option<Request> {
    if log == [] then None
    else
      var pre, e := log[..|log| - 1], log[|log| - 1];
      match e
      case Asked(r) => if Owing(pre).Some? then Owing(pre) else Some(r)
      case GaveUp => Owing(pre)
      case Served => None
      case Crashed => None
  }

  /** A call on this connection was given up and has had no reply since. */
  predicate Abandoned(log: seq<CallEvent>)
    requires Current(log).Some?
  {
    Owing(log[..|log| - 1]).Some?
  }

  predicate NoNul(f: Frame) {
    forall i :: 0 <= i < |f| ==> f[i] != 0 as char
  }

  /** A request that can be made: a C string names the service, and there is a body. */
  predicate Askable(r: Request) {
    r.body != [] && NoNul(r.service)
  }

  predicate SameService(a: Option<Request>, b: Option<Request>) {
    a.Some? && b.Some? && a.value.service == b.value.service
  }

  /** A log the API can produce: a reply is returned exactly for the service asked for. */
  predicate Proper(log: seq<CallEvent>) {
    log == [] ||
      var pre, e := log[..|log| - 1], log[|log| - 1];
      && Proper(pre)
      && match e
         case Asked(r) => AtLeisure(pre) && Askable(r)
         case GaveUp => Current(pre).Some?
         case Served => Current(pre).Some? && SameService(Owing(pre), Current(pre))
         case Crashed => Current(pre).Some? && Owing(pre).Some? && !SameService(Owing(pre), Current(pre))
  }

  lemma OwingAppend(log: seq<CallEvent>, e: CallEvent)
    ensures Owing(log + [e]) ==
            match e { case Asked(r) => if Owing(log).Some? then Owing(log) else Some(r)
                      case GaveUp => Owing(log)
                      case Served => None
                      case Crashed => None }
  {
    assert (log + [e])[..|log|] == log;
  }

  /** While a call goes on, something is owed: its own request, or that of a call given up before. */
  lemma OwingInCall(log: seq<CallEvent>)
    requires Current(log).Some?
    ensures Owing(log).Some? && (!Abandoned(log) ==> Owing(log) == Current(log))
  {
  }
}
