/** The command dispatcher `handle_cmd`: only messages in public (group, supergroup or
    channel) chats that have a sender are handled; each command is then delegated to its
    handler. Only the request errors of `/start`, `/stop` and `/isonline` reach the
    dispatcher's result; the errors of `/graph` and `/uptime` become an error reply. */
module Cmd {
  import opened Wrappers
  import opened Probe
  import opened Database
  import opened Chat
  // Aliased so that their names do not clash with the commands below.
  import Subscribe = Start
  import Unsubscribe = Stop
  import Probes = Isonline
  import Report = Uptime

  /** The bot's commands. */
  datatype Command = Start | Stop | Isonline | Graph | Uptime

  /** teloxide's `ChatKind`: a private chat, or a public one (group, supergroup, channel). */
  datatype ChatKind = Private | Public

  newtype u64 = x: int | 0 <= x < 0x1_0000_0000_0000_0000

  /** An incoming message: the chat it was posted in and the Telegram id of its sender, if
      it has one. */
  datatype Message = Message(chat: int, kind: ChatKind, sender: Option<u64>)

  const TwoTo63: int := 0x8000_0000_0000_0000
  const TwoTo64: int := 0x1_0000_0000_0000_0000

  /** `id as i64`: the two's complement reading of a `u64`, so ids from 2^63 up wrap to
      negative numbers. */
  function AsI64(id: u64): (r: int)
    ensures -TwoTo63 <= r < TwoTo63
    ensures r == id as int || r == id as int - TwoTo64
  {
    if (id as int) < TwoTo63 then id as int else id as int - TwoTo64
  }

  /** `x as u64` for an `i64`. */
  function AsU64(x: int): u64
    requires -TwoTo63 <= x < TwoTo63
  {
    if x >= 0 then x as u64 else (x + TwoTo64) as u64
  }

  /** The cast loses nothing: distinct senders keep distinct user ids, and ids below 2^63
      are unchanged. */
  lemma AsI64RoundTrip(id: u64)
    ensures AsU64(AsI64(id)) == id
    ensures (id as int) < TwoTo63 ==> AsI64(id) == id as int
  {
  }

  lemma AsI64Injective(a: u64, b: u64)
    requires AsI64(a) == AsI64(b)
    ensures a == b
  {
    AsI64RoundTrip(a);
    AsI64RoundTrip(b);
  }

  /** Which handler a message reaches, with the arguments it gets. */
  datatype Route =
    | Ignore
    | RunStart(chat: int, user: int)
    | RunStop(chat: int, user: int)
    | RunIsonline(chat: int, user: int)
    | RunGraph(chat: int)
    | RunUptime(chat: int)

  /** Lines 58-67 and the arms of the `match`: a private chat, or a message without a
      sender, ends the handler; otherwise the command picks the handler, called with the
      chat and the sender's id cast to `i64`. */
  function RouteOf(msg: Message, cmd: Command): (r: Route)
    ensures r.Ignore? <==> msg.kind.Private? || msg.sender.None?
    ensures !r.Ignore? ==> r.chat == msg.chat
    ensures r.RunStart? <==> !r.Ignore? && cmd == Start
    ensures r.RunStop? <==> !r.Ignore? && cmd == Stop
    ensures r.RunIsonline? <==> !r.Ignore? && cmd == Isonline
    ensures r.RunGraph? <==> !r.Ignore? && cmd == Graph
    ensures r.RunUptime? <==> !r.Ignore? && cmd == Uptime
    ensures r.RunStart? || r.RunStop? || r.RunIsonline? ==> r.user == AsI64(msg.sender.value)
  {
    if !msg.kind.Public? then Ignore
    else match msg.sender
      case None => Ignore
      case Some(id) =>
        var user := AsI64(id);
        match cmd
        case Start => RunStart(msg.chat, user)
        case Stop => RunStop(msg.chat, user)
        case Isonline => RunIsonline(msg.chat, user)
        case Graph => RunGraph(msg.chat)
        case Uptime => RunUptime(msg.chat)
  }

  /** Everything outside the bot that a command's outcome depends on: the configuration, the
      outcomes of the probe attempts and tasks, the clock, and whether each kind of request
      (store statement, Telegram request, chart drawing) fails. */
  datatype World = World(
    admins: seq<int>,
    probeCount: nat,
    targets: seq<Target>,
    outcomes: seq<seq<Attempt>>,
    panicked: seq<bool>,
    now: int,
    storeFails: bool,
    lookupFails: bool,
    queryFails: bool,
    sendFails: bool,
    graphFails: bool)

  /** One outcome series per target, each of `probe_count` attempts, and one task result per
      target. */
  predicate WellFormed(w: World)
  {
    && |w.outcomes| == |w.targets| == |w.panicked|
    && forall i :: 0 <= i < |w.outcomes| ==> |w.outcomes[i]| == w.probeCount
  }

  /** The `/graph` arm: only for a subscribed chat (a failed lookup counts as not
      subscribed) is the chart drawn; if drawing fails an error reply is sent, whose own
      outcome is discarded. */
  method GraphArm(db: Db, chat: int, lookupFails: bool, graphFails: bool) returns (actions: seq<Action>)
    ensures lookupFails || chat !in db.subscriptions ==> actions == []
    ensures !lookupFails && chat in db.subscriptions ==>
              actions == [DrawGraph(chat)] + if graphFails then [Send(chat, GraphFailed)] else []
  {
    var subscribed := db.IsSubscribed(chat, lookupFails);
    if subscribed.Ok? && subscribed.value {
      actions := [DrawGraph(chat)];
      if graphFails {
        actions := actions + [Send(chat, GraphFailed)];
      }
    } else {
      actions := [];
    }
  }

  /** `handle_cmd`. */
  method HandleCmd(db: Db, msg: Message, cmd: Command, w: World) returns (actions: seq<Action>, r: Result<()>)
    requires WellFormed(w)
    modifies db
    ensures db.metrics == old(db.metrics)
    ensures !RouteOf(msg, cmd).RunStart? && !RouteOf(msg, cmd).RunStop? ==> db.subscriptions == old(db.subscriptions)
    ensures RouteOf(msg, cmd).Ignore? ==> actions == [] && r == Ok(())
    ensures r.Err? ==> RouteOf(msg, cmd).RunStart? || RouteOf(msg, cmd).RunStop? || RouteOf(msg, cmd).RunIsonline?
    ensures RouteOf(msg, cmd).RunStart? ==>
              var user := RouteOf(msg, cmd).user;
              && db.subscriptions == (if w.storeFails then old(db.subscriptions)
                                      else Subscribe.AfterStart(old(db.subscriptions), msg.chat, user, w.admins))
              && actions == (if user in w.admins then [Send(msg.chat, SubscriptionEnabled)] else [])
              && (r.Err? <==> user in w.admins && w.sendFails)
    ensures RouteOf(msg, cmd).RunStop? ==>
              var user := RouteOf(msg, cmd).user;
              && db.subscriptions == (if w.storeFails then old(db.subscriptions)
                                      else Unsubscribe.AfterStop(old(db.subscriptions), msg.chat, user, w.admins))
              && actions == (if user in w.admins then [Send(msg.chat, SubscriptionCancelled)] else [])
              && (r.Err? <==> user in w.admins && w.sendFails)
    ensures RouteOf(msg, cmd).RunIsonline? ==>
              && (w.lookupFails || msg.chat !in db.subscriptions ==> actions == [] && r == Ok(()))
              && (!w.lookupFails && msg.chat in db.subscriptions ==>
                    && |actions| >= 1 && actions[0] == Send(msg.chat, Testing)
                    && (r.Err? <==> w.sendFails)
                    && (w.sendFails ==> actions == [Send(msg.chat, Testing)])
                    && (!w.sendFails ==> actions == [Send(msg.chat, Testing), Edit(msg.chat,
                          ProbeReport(Probes.ReportLines(Probes.ProbeResults(w.targets, w.outcomes, w.panicked))))]))
    ensures RouteOf(msg, cmd).RunGraph? ==>
              && r == Ok(())
              && (w.lookupFails || msg.chat !in db.subscriptions ==> actions == [])
              && (!w.lookupFails && msg.chat in db.subscriptions ==>
                    actions == [DrawGraph(msg.chat)] + if w.graphFails then [Send(msg.chat, GraphFailed)] else [])
    ensures RouteOf(msg, cmd).RunUptime? ==>
              && r == Ok(())
              && (w.queryFails ==> actions == [Send(msg.chat, UptimeFailed)])
              && (!w.queryFails ==> |actions| == 1 && Report.ShowsUptime(actions[0], msg.chat, db.metrics, w.now))
  {
    var route := RouteOf(msg, cmd);
    match route
    case Ignore =>
      actions, r := [], Ok(());
    case RunStart(chat, user) =>
      actions, r := Subscribe.StartCommand(db, chat, user, w.admins, w.storeFails, w.sendFails);
    case RunStop(chat, user) =>
      actions, r := Unsubscribe.StopCommand(db, chat, user, w.admins, w.storeFails, w.sendFails);
    case RunIsonline(chat, user) =>
      actions, r := Probes.IsonlineCommand(db, chat, w.probeCount, w.targets, w.outcomes, w.panicked,
                                           w.lookupFails, w.sendFails);
    case RunGraph(chat) =>
      actions := GraphArm(db, chat, w.lookupFails, w.graphFails);
      r := Ok(());
    case RunUptime(chat) =>
      var drawn;
      actions, drawn := Report.DrawUptime(db, chat, w.now, w.queryFails);
      if drawn.Err? {
        actions := actions + [Send(chat, UptimeFailed)];
      }
      r := Ok(());
  }
}
