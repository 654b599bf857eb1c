/** `/stop`: an administrator cancels the chat's subscription. */
module Stop {
  import opened Wrappers
  import opened Database
  import opened Chat

  /** The subscriptions after a `/stop` by `user` in `chat` whose store update goes
      through: the chat is removed for an administrator, nothing changes otherwise. */
  function AfterStop(subscriptions: set<int>, chat: int, user: int, admins: seq<int>): set<int>
  {
    if user in admins then subscriptions - {chat} else subscriptions
  }

  /** An administrator's `/stop` unsubscribes the chat; anyone else's changes nothing; no
      other chat is affected. */
  lemma StopUnsubscribes(subscriptions: set<int>, chat: int, user: int, admins: seq<int>)
    ensures user in admins ==> chat !in AfterStop(subscriptions, chat, user, admins)
    ensures user !in admins ==> AfterStop(subscriptions, chat, user, admins) == subscriptions
    ensures forall c :: c != chat ==> (c in AfterStop(subscriptions, chat, user, admins) <==> c in subscriptions)
  {
  }

  /** A `/stop` in a chat that is not subscribed leaves the subscriptions as they are. */
  lemma StopAbsent(subscriptions: set<int>, chat: int, user: int, admins: seq<int>)
    requires chat !in subscriptions
    ensures AfterStop(subscriptions, chat, user, admins) == subscriptions
  {
  }

  /** `stop_command` (a copy that behaves identically sits at the top of the `/isonline` file): for
      an administrator, remove the subscription, treating a store error as success, then send
      the notice, whose request error is the result. Anyone else gets no reply. */
  method StopCommand(db: Db, chat: int, user: int, admins: seq<int>, storeFails: bool, sendFails: bool)
    returns (actions: seq<Action>, r: Result<()>)
    modifies db
    ensures db.metrics == old(db.metrics)
    ensures db.subscriptions == if storeFails then old(db.subscriptions) else AfterStop(old(db.subscriptions), chat, user, admins)
    ensures user !in admins ==> actions == [] && r == Ok(())
    ensures user in admins ==> actions == [Send(chat, SubscriptionCancelled)] && (r.Err? <==> sendFails)
  {
    if user in admins {
      var _ := db.RemoveSubscription(chat, storeFails);
      actions := [Send(chat, SubscriptionCancelled)];
      r := if sendFails then Err else Ok(());
    } else {
      actions := [];
      r := Ok(());
    }
  }
}
