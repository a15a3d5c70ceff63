/** What the queue is for, without nodes and links: an append-only log of messages, the set of the
    claimed ones, and one cursor per consumer.  A cursor is the number of the message it stands on;
    `START` is the place before the first message, and the messages are numbered from there on. */
module MessageLog {
  import opened Bytes
  import opened Options

  const START: nat := 1

  datatype Log = Log(messages: seq<Payload>, claimed: set<nat>, cursors: map<nat, nat>)

  datatype Action =
    | Idle
    | Append(message: Payload)
    | Claim(i: nat)
    | Register(c: nat)
    | TryNext(c: nat, result: Option<nat>)

  const EMPTY := Log([], {}, map[])

  /** Message `i` is there to be taken. */
  ghost predicate Open(log: Log, i: nat) {
    START < i <= START + |log.messages| && i !in log.claimed
  }

  /** `result` is the least open message after `u`, or there is none. */
  ghost predicate FirstOpenAfter(log: Log, u: nat, result: Option<nat>) {
    match result
    case None => forall i: nat :: i > u ==> !Open(log, i)
    case Some(r) => r > u && Open(log, r) && (forall i: nat :: u < i < r ==> !Open(log, i))
  }

  /** `result` is an open message, and no open message after `u` comes before it; there is a result
      if there is any open message after `u`. */
  ghost predicate NoneSkippedAfter(log: Log, u: nat, result: Option<nat>) {
    match result
    case None => forall i: nat :: i > u ==> !Open(log, i)
    case Some(r) => Open(log, r) && (forall i: nat :: u < i < r ==> !Open(log, i))
  }

  ghost predicate Next(log: Log, action: Action, after: Log) {
    match action
    case Idle => after == log
    case Append(message) => after == log.(messages := log.messages + [message])
    case Claim(i) => START < i <= START + |log.messages| && after == log.(claimed := log.claimed + {i})
    case Register(c) => c !in log.cursors && after == log.(cursors := log.cursors[c := START])
    case TryNext(c, result) =>
      && c in log.cursors
      && (if log.cursors[c] in log.claimed
          then NoneSkippedAfter(log, log.cursors[c], result)
          else FirstOpenAfter(log, log.cursors[c], result))
      && after == (match result
                   case None => log
                   case Some(r) => log.(cursors := log.cursors[c := r]))
  }
}
