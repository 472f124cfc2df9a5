/** The media engine as a session sees it: the first-in first-out queue of media commands of `ClientSessions` is what the
    batches and the queue of the engine amount to, whatever other senders do at the same time. */
module SessionMedia {
  import opened Common
  import CS = ClientSessions
  import E = EngineModel

  /** The first n commands of sender k. */
  function Commands(k: nat, n: nat): (r: seq<E.Command>)
    ensures |r| == n && forall i :: 0 <= i < n ==> r[i] == E.Command(k, i)
  {
    seq(n, i requires 0 <= i < n => E.Command(k, i))
  }

  lemma {:induction false} RepliesTaken(w: CS.World, n: nat)
    requires n <= |w.media|
    ensures CS.Run(w, CS.Replies(n)).media == w.media[n..]
    decreases n
  {
    if n > 0 {
      RepliesTaken(CS.Step(w, CS.MediaReply), n - 1);
      assert CS.Replies(n)[0] == CS.MediaReply && CS.Replies(n)[1..] == CS.Replies(n - 1);
    }
  }

  /** After i replies the session takes the i-th command. */
  predicate TakesNext(w: CS.World, i: nat) {
    i < |w.media| && |CS.Run(w, CS.Replies(i)).media| > 0 && CS.Run(w, CS.Replies(i)).media[0] == w.media[i]
  }

  /** If session k adds its media commands in order, the i-th reply of the engine to it answers the command that the i-th
      reply event of the session takes; the replies are complete once all is sent and drained. */
  lemma RepliesAreFifo(w: CS.World, actions: seq<E.Action>, k: nat)
    requires E.Of(E.Added(actions), k) == Commands(k, |w.media|)
    ensures var e := E.Run(E.NewEngine, actions);
            var replies := E.Of(E.Flatten(e.replies), k);
            && |replies| <= |w.media|
            && (forall i :: 0 <= i < |replies| ==> replies[i] == E.Command(k, i) && TakesNext(w, i))
            && (E.Waiting(e, k) == [] ==> |replies| == |w.media|)
  {
    E.InOrder(actions, k);
    var e := E.Run(E.NewEngine, actions);
    var replies := E.Of(E.Flatten(e.replies), k);
    PrefixOf(replies, E.Waiting(e, k), Commands(k, |w.media|));
    forall i | 0 <= i < |replies|
      ensures TakesNext(w, i)
    {
      RepliesTaken(w, i);
    }
  }

  lemma PrefixOf(a: seq<E.Command>, b: seq<E.Command>, c: seq<E.Command>)
    requires c == a + b
    ensures |a| <= |c| && (forall i :: 0 <= i < |a| ==> a[i] == c[i]) && (b == [] ==> |a| == |c|)
  {
  }
}
