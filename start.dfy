/** `/start`: an administrator subscribes the chat to the monitor's reports. */
module Start {
  import opened Wrappers
  import opened Database
  import opened Chat

  /** The subscriptions after a `/start` by `user` in `chat` whose store update goes
      through: the chat is added for an administrator, nothing changes otherwise. */
  function AfterStart(subscriptions: set<int>, chat: int, user: int, admins: seq<int>): set<int>
  {
    if user in admins then subscriptions + {chat} else subscriptions
  }

  /** An administrator's `/start` subscribes the chat; anyone else's changes nothing. */
  lemma StartSubscribes(subscriptions: set<int>, chat: int, user: int, admins: seq<int>)
    ensures user in admins ==> chat in AfterStart(subscriptions, chat, user, admins)
    ensures user !in admins ==> AfterStart(subscriptions, chat, user, admins) == subscriptions
    ensures forall c :: c != chat ==> (c in AfterStart(subscriptions, chat, user, admins) <==> c in subscriptions)
  {
  }

  /** A repeated `/start` leaves the same subscriptions as a single one. */
  lemma StartIdempotent(subscriptions: set<int>, chat: int, user: int, admins: seq<int>)
    ensures var once := AfterStart(subscriptions, chat, user, admins);
      AfterStart(once, chat, user, admins) == once
  {
  }

  /** `start_command`: for an administrator, add the subscription, treating a store error
      as success (`.ok()`), then send the confirmation, whose request error is the result.
      Anyone else gets no reply. */
  method StartCommand(db: Db, chat: int, user: int, admins: seq<int>, storeFails: bool, sendFails: bool)
    returns (actions: seq<Action>, r: Result<()>)
    modifies db
    ensures db.metrics == old(db.metrics)
    ensures db.subscriptions == if storeFails then old(db.subscriptions) else AfterStart(old(db.subscriptions), chat, user, admins)
    ensures user !in admins ==> actions == [] && r == Ok(())
    ensures user in admins ==> actions == [Send(chat, SubscriptionEnabled)] && (r.Err? <==> sendFails)
  {
    if user in admins {
      var _ := db.AddSubscription(chat, storeFails);
      actions := [Send(chat, SubscriptionEnabled)];
      r := if sendFails then Err else Ok(());
    } else {
      actions := [];
      r := Ok(());
    }
  }
}
