/** The main loop: receive, parse, execute, and answer, while detached threads answer as they finish. */
module TaskLoop {
  /** A container as far as the loop cares. */
  datatype Kind = Empty | Quit | Evacuate(tasksListed: bool) | Other

  datatype Message = NotYaml | NotContainer | Container(kind: Kind, concurrent: bool)

  /** How `execute` ends. */
  datatype Outcome = Returned | ThrewQuit | ThrewOther

  predicate IsQuit(m: Message) {
    m.Container? && m.kind == Quit
  }

  /** Messages whose container runs in a detached thread. */
  predicate IsDetached(m: Message) {
    m.Container? && m.concurrent && (m.kind == Other || (m.kind.Evacuate? && m.kind.tasksListed))
  }

  /** How often i stands in s. */
  function Count(s: seq<nat>, i: nat): nat {
    if s == [] then 0 else Count(s[..|s| - 1], i) + if s[|s| - 1] == i then 1 else 0
  }

  lemma CountSnoc(s: seq<nat>, x: nat, i: nat)
    ensures Count(s + [x], i) == Count(s, i) + if x == i then 1 else 0
  {
    assert (s + [x])[..|s|] == s;
  }

  lemma {:induction false} CountWithout(s: seq<nat>, k: nat, i: nat)
    requires k < |s|
    ensures Count(s, i) == Count(s[..k] + s[k + 1..], i) + if s[k] == i then 1 else 0
  {
    var n := |s| - 1;
    if k < n {
      CountWithout(s[..n], k, i);
      assert (s[..k] + s[k + 1..])[..n - 1] == s[..n][..k] + s[..n][k + 1..];
    } else {
      assert s[..k] + s[k + 1..] == s[..n];
    }
  }

  lemma {:induction false} CountMember(s: seq<nat>, i: nat)
    ensures Count(s, i) > 0 <==> i in s
  {
    if s != [] {
      CountMember(s[..|s| - 1], i);
      assert s == s[..|s| - 1] + [s[|s| - 1]];
    }
  }

  ghost predicate AllWork(works: nat -> bool) {
    forall k :: works(k)
  }

  class TaskHandler {
    var running: bool
    /** An exception left a detached thread, which ends the process. */
    var terminated: bool
    /** For every reply sent, the message it answers. */
    var replies: seq<nat>
    /** The messages whose containers have been given to a detached thread that has not ended. */
    var threads: seq<nat>
    /** Those of them whose thread has begun and constructed its counter. */
    var begun: set<nat>
    /** Attempts to send so far; `works` says which succeed. */
    var sends: nat
    /** The messages whose reply could not be sent. */
    ghost var dropped: seq<nat>

    constructor ()
      ensures Fresh() && sends == 0
    {
      running, terminated, replies, threads, begun, sends := true, false, [], [], {}, 0;
      dropped := [];
    }

    ghost predicate Fresh()
      reads this
    {
      running && !terminated && replies == [] && threads == [] && begun == {} && dropped == []
    }

    ghost predicate Valid()
      reads this
    {
      forall i :: i in begun ==> i in threads
    }

    /** How often message i is answered, still to be answered by a thread, or given up. */
    ghost function Tally(i: nat): nat
      reads this
    {
      Count(replies, i) + Count(threads, i) + Count(dropped, i)
    }

    method Send(i: nat, works: nat -> bool) returns (ok: bool)
      requires Valid()
      modifies this`replies, this`sends
      ensures Valid()
      ensures ok == works(old(sends)) && sends == old(sends) + 1
      ensures replies == old(replies) + if ok then [i] else []
      ensures forall j: nat :: Tally(j) == old(Tally(j)) + if ok && j == i then 1 else 0
    {
      ok := works(sends);
      sends := sends + 1;
      if ok {
        replies := replies + [i];
      }
      forall j: nat
        ensures Count(old(replies) + [i], j) == Count(old(replies), j) + if j == i then 1 else 0
      {
        CountSnoc(old(replies), i, j);
      }
    }

    /** The reply to message i is given up. */
    ghost method Drop(i: nat)
      requires Valid()
      modifies this`dropped
      ensures Valid() && dropped == old(dropped) + [i]
      ensures forall j: nat :: Tally(j) == old(Tally(j)) + if j == i then 1 else 0
    {
      dropped := dropped + [i];
      forall j: nat
        ensures Count(dropped, j) == Count(old(dropped), j) + if j == i then 1 else 0
      {
        CountSnoc(old(dropped), i, j);
      }
    }

    /** Running a container: in this thread, which sends the reply, or in a detached one. */
    method Execute(i: nat, kind: Kind, concurrent: bool, works: nat -> bool) returns (o: Outcome)
      requires Valid()
      modifies this`replies, this`threads, this`sends
      ensures Valid()
      ensures o == ThrewQuit <==> kind == Quit && works(old(sends))
      ensures forall j: nat :: Tally(j) == old(Tally(j)) + if o != ThrewOther && j == i then 1 else 0
      ensures threads == old(threads) + [i] <==>
                concurrent && (kind == Other || (kind.Evacuate? && kind.tasksListed))
      ensures threads == old(threads) || (threads == old(threads) + [i] && replies == old(replies))
      ensures o == ThrewQuit ==> threads == old(threads) && replies == old(replies) + [i]
      ensures o == ThrewOther ==> threads == old(threads) && replies == old(replies)
      ensures o == ThrewOther <==> (kind.Evacuate? && !kind.tasksListed)
                                   || (!IsDetached(Container(kind, concurrent)) && !works(old(sends)))
      ensures o != ThrewOther && !IsDetached(Container(kind, concurrent)) ==> replies == old(replies) + [i]
    {
      var ok;
      if kind == Empty {
        ok := Send(i, works);
        return if ok then Returned else ThrewOther;
      }
      if kind == Quit {
        ok := Send(i, works);
        return if ok then ThrewQuit else ThrewOther;
      }
      if kind.Evacuate? && !kind.tasksListed {
        return ThrewOther;
      }
      if concurrent {
        threads := threads + [i];
        forall j: nat
          ensures Count(threads, j) == Count(old(threads), j) + if j == i then 1 else 0
        {
          CountSnoc(old(threads), i, j);
        }
        return Returned;
      }
      ok := Send(i, works);
      return if ok then Returned else ThrewOther;
    }

    /** Detached threads begin: each constructs its counter. */
    method SomeThreadsBegin()
      requires Valid()
      modifies this`begun
      ensures Valid() && old(begun) <= begun
    {
      var all := set k | 0 <= k < |threads| :: threads[k];
      assert {} <= all;
      var chosen :| chosen <= all;
      begun := begun + chosen;
    }

    /** A thread that has begun sends its reply and ends; nothing catches a failure to send. */
    method FinishThread(k: nat, works: nat -> bool)
      requires Valid() && k < |threads| && threads[k] in begun
      modifies this`replies, this`threads, this`begun, this`sends, this`terminated, this`dropped
      ensures Valid() && threads == old(threads[..k] + threads[k + 1..])
      ensures terminated == (old(terminated) || !works(old(sends)))
      ensures forall j: nat :: Tally(j) == old(Tally(j))
      ensures works(old(sends)) ==> dropped == old(dropped)
    {
      var i := threads[k];
      forall j: nat
        ensures Count(threads, j) == Count(threads[..k] + threads[k + 1..], j) + if j == i then 1 else 0
      {
        CountWithout(threads, k, j);
      }
      threads := threads[..k] + threads[k + 1..];
      begun := begun - {i};
      var ok := Send(i, works);
      if !ok {
        terminated := true;
        Drop(i);
      }
    }

    /** Any of the threads that have begun ends. */
    method OneThreadFinishes(works: nat -> bool)
      requires Valid() && begun != {}
      modifies this`replies, this`threads, this`begun, this`sends, this`terminated, this`dropped
      ensures Valid() && |threads| < |old(threads)| && (old(terminated) ==> terminated)
      ensures forall j: nat :: Tally(j) == old(Tally(j))
      ensures AllWork(works) ==> terminated == old(terminated) && dropped == old(dropped)
    {
      var i :| i in begun;
      var k :| 0 <= k < |threads| && threads[k] == i;
      FinishThread(k, works);
    }

    /** Any threads begin and any end, in any order. */
    method SomeThreadsRun(works: nat -> bool)
      requires Valid() && !terminated
      modifies this`replies, this`threads, this`begun, this`sends, this`terminated, this`dropped
      ensures Valid() && forall j: nat :: Tally(j) == old(Tally(j))
      ensures AllWork(works) ==> terminated == old(terminated) && dropped == old(dropped)
    {
      SomeThreadsBegin();
      while *
        invariant Valid() && forall j: nat :: Tally(j) == old(Tally(j))
        invariant AllWork(works) ==> terminated == old(terminated) && dropped == old(dropped)
        decreases |threads|
      {
        if terminated || begun == {} {
          break;
        }
        OneThreadFinishes(works);
        SomeThreadsBegin();
      }
    }

    /** The reply to an exception, which is dropped if it cannot be sent; threads may run before. */
    method SendError(i: nat, works: nat -> bool)
      requires Valid() && !terminated
      modifies this`replies, this`threads, this`begun, this`sends, this`terminated, this`dropped
      ensures Valid() && forall j: nat :: Tally(j) == old(Tally(j)) + if j == i then 1 else 0
      ensures AllWork(works) ==> terminated == old(terminated) && dropped == old(dropped)
    {
      SomeThreadsRun(works);
      if terminated {
        Drop(i);
      } else {
        var ok := Send(i, works);
        if !ok {
          Drop(i);
        }
      }
    }

    /** One turn of the loop: exceptions other than quit are answered, if that can be sent. */
    method Handle(i: nat, m: Message, works: nat -> bool)
      requires Valid() && running && !terminated
      modifies this
      ensures Valid() && (running <==> !(IsQuit(m) && works(old(sends))))
      ensures forall j: nat :: Tally(j) == old(Tally(j)) + if j == i then 1 else 0
      ensures AllWork(works) ==> terminated == old(terminated) && dropped == old(dropped)
      ensures IsDetached(m) ==> threads == old(threads) + [i] && begun == old(begun)
                                && replies == old(replies) && terminated == old(terminated)
      ensures !running ==> threads == old(threads) && begun == old(begun)
                           && replies == old(replies) + [i] && terminated == old(terminated)
    {
      if !m.Container? {
        SendError(i, works);
        return;
      }
      var o := Execute(i, m.kind, m.concurrent, works);
      if o == ThrewQuit {
        running := false;
      } else if o == ThrewOther {
        SendError(i, works);
      }
    }

    /** One turn of the loop, then any threads run. */
    method Turn(n: nat, m: Message, works: nat -> bool)
      requires Valid() && running && !terminated
      modifies this
      ensures Valid() && (running <==> !(IsQuit(m) && works(old(sends))))
      ensures forall j: nat :: Tally(j) == old(Tally(j)) + if j == n then 1 else 0
      ensures AllWork(works) ==> !terminated && dropped == old(dropped)
    {
      Handle(n, m, works);
      if !terminated {
        SomeThreadsRun(works);
      }
    }

    /**
     The loop over the messages received, up to a quit whose reply could be sent, with threads
     beginning and ending between any two sends.
     */
    method Loop(inbox: seq<Message>, works: nat -> bool) returns (n: nat)
      requires Fresh()
      modifies this
      ensures Valid() && n <= |inbox| && (n < |inbox| && !terminated ==> !running)
      ensures !running ==> n > 0 && IsQuit(inbox[n - 1])
      ensures forall j: nat :: Tally(j) == if j < n then 1 else 0
      ensures AllWork(works) ==>
                && !terminated && dropped == []
                && forall i :: 0 <= i < n - 1 ==> !IsQuit(inbox[i])
    {
      n := 0;
      while running && !terminated && n < |inbox|
        invariant Valid() && n <= |inbox|
        invariant !running ==> n > 0 && IsQuit(inbox[n - 1])
        invariant forall j: nat :: Tally(j) == if j < n then 1 else 0
        invariant AllWork(works) ==>
                    && !terminated && dropped == []
                    && forall i :: 0 <= i < (if running then n else n - 1) ==> !IsQuit(inbox[i])
        decreases |inbox| - n
      {
        Turn(n, inbox[n], works);
        n := n + 1;
      }
    }

    /**
     The destructor waits until no counter is live. Threads that have not begun have none, so they are
     not waited for, unless they begin while it waits for others.
     */
    method WaitForThreads(works: nat -> bool)
      requires Valid()
      modifies this`replies, this`threads, this`begun, this`sends, this`terminated, this`dropped
      ensures Valid() && (!terminated ==> begun == {} && !old(terminated))
      ensures forall j: nat :: Tally(j) == old(Tally(j))
      ensures AllWork(works) ==> terminated == old(terminated) && dropped == old(dropped)
      ensures old(begun) == {} ==>
                threads == old(threads) && replies == old(replies) && terminated == old(terminated)
    {
      while !terminated && begun != {}
        invariant Valid() && forall j: nat :: Tally(j) == old(Tally(j))
        invariant AllWork(works) ==> terminated == old(terminated) && dropped == old(dropped)
        invariant old(terminated) ==> terminated
        invariant old(begun) == {} ==>
                    begun == {} && threads == old(threads) && replies == old(replies) && terminated == old(terminated)
        decreases |threads|
      {
        OneThreadFinishes(works);
        SomeThreadsBegin();
      }
    }

    /**
     The loop followed by the destructor, after which the process ends. Every message handled has its
     one reply, or its reply could not be sent, or its thread never began; no message has more than
     one of these, and no other message has any. So if sending works, a message handled is answered
     if and only if it has no thread left that never began.
     */
    method Serve(inbox: seq<Message>, works: nat -> bool) returns (n: nat)
      requires Fresh()
      modifies this
      ensures n <= |inbox| && (n < |inbox| && !terminated ==> !running)
      ensures !terminated ==> begun == {}
      ensures forall i: nat :: Count(replies, i) + Count(threads, i) + Count(dropped, i) == if i < n then 1 else 0
      ensures AllWork(works) ==> !terminated && dropped == []
      ensures AllWork(works) ==> forall i: nat :: Count(replies, i) == if i < n && i !in threads then 1 else 0
    {
      n := Loop(inbox, works);
      WaitForThreads(works);
      forall i: nat
        ensures Tally(i) == Count(replies, i) + Count(threads, i) + Count(dropped, i)
        ensures Count(threads, i) > 0 <==> i in threads
      {
        CountMember(threads, i);
      }
    }

    /**
     The run that leaves a message unanswered although every send works: a container for a detached
     thread, then a quit, and the thread does not begin before the destructor looks at the counter.
     */
    method ServeUnanswered(first: Message, works: nat -> bool)
      requires Fresh() && IsDetached(first) && AllWork(works)
      modifies this
      ensures !running && !terminated && threads == [0] && begun == {}
      ensures replies == [1]
    {
      Handle(0, first, works);
      Handle(1, Container(Quit, true), works);
      WaitForThreads(works);
    }
  }
}
