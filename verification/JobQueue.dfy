/**
 Named job queues over one channel (base/mgr/queue.go): the jobs of a named queue go out one at a time,
 the next when the previous one is notified as finished; jobs without a queue go out at once.
 */
module JobQueue {
  import opened Wrappers

  /** `uid` tells calls apart that use the same job id. */
  datatype Job = Job(uid: nat, id: string, queue: string)

  type Queues = map<string, seq<Job>>

  function Get(m: map<string, seq<Job>>, name: string): seq<Job> {
    if name in m then m[name] else []
  }

  /** The queues after a push. Unnamed jobs are not queued. */
  function Pushed(qs: Queues, j: Job): Queues {
    if j.queue == "" then qs else qs[j.queue := Get(qs, j.queue) + [j]]
  }

  /** A pushed job goes out at once when it is unnamed or the first of its queue. */
  predicate SendsNow(qs: Queues, j: Job) {
    j.queue == "" || Get(qs, j.queue) == []
  }

  /** The queues after a notification: the front is removed, and an empty queue is forgotten. */
  function Notified(qs: Queues, name: string): Queues
    requires name in qs ==> qs[name] != []
  {
    if name !in qs then qs
    else if |qs[name]| == 1 then qs - {name}
    else qs[name := qs[name][1..]]
  }

  /** The job a notification sends out next. */
  function NextOut(qs: Queues, name: string): Option<Job> {
    if name in qs && |qs[name]| > 1 then Some(qs[name][1]) else None
  }

  predicate NoEmptyQueue(qs: Queues) {
    forall n :: n in qs ==> qs[n] != []
  }

  class Queue {
    var queues: Queues
    var closed: bool
    /** What has been sent on the channel, in order. */
    var sent: seq<Job>

    ghost predicate Valid()
      reads this
    {
      NoEmptyQueue(queues)
    }

    constructor ()
      ensures Valid() && queues == map[] && !closed && sent == []
    {
      queues, closed, sent := map[], false, [];
    }

    method Close()
      requires Valid() && !closed
      modifies this`closed
      ensures Valid() && closed
    {
      closed := true;
    }

    method Push(job: Job) returns (ok: bool)
      requires Valid()
      modifies this`queues, this`sent
      ensures Valid() && ok == !closed
      ensures !ok ==> queues == old(queues) && sent == old(sent)
      ensures ok ==> queues == Pushed(old(queues), job)
      ensures ok ==> sent == if SendsNow(old(queues), job) then old(sent) + [job] else old(sent)
    {
      if closed { return false; }
      var name := job.queue;
      if name == "" {
        sent := sent + [job];
        return true;
      }
      if name !in queues {
        queues := queues[name := []];
      }
      queues := queues[name := queues[name] + [job]];
      if |queues[name]| == 1 {
        sent := sent + [job];
      }
      return true;
    }

    method Notify(job: Job)
      requires Valid()
      modifies this`queues, this`sent
      ensures Valid()
      ensures closed ==> queues == old(queues) && sent == old(sent)
      ensures !closed ==> queues == Notified(old(queues), job.queue)
      ensures !closed ==>
        sent == match NextOut(old(queues), job.queue) case Some(next) => old(sent) + [next] case None => old(sent)
    {
      if closed { return; }
      var name := job.queue;
      if name !in queues { return; }
      queues := queues[name := queues[name][1..]];
      if |queues[name]| == 0 {
        queues := queues - {name};
        return;
      }
      sent := sent + [queues[name][0]];
    }
  }
}
