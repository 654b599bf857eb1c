/** What the bot sends to a chat, as abstract values: the wording, emoji and locale-formatted
    times of the messages are presentation and are not modelled. */
module Chat {
  import opened Wrappers

  /** The traffic-light symbol of one 15-minute window: 🟩, 🟨 or 🟥. */
  datatype Status = Green | Yellow | Red

  /** One line `[alias]: <symbols>` of the uptime message. */
  datatype AliasLine = AliasLine(alias: string, cells: seq<Status>)

  /** The uptime message: a header naming the look-back in hours, then one line per alias. */
  datatype UptimeReport = UptimeReport(lookbackHours: nat, lines: seq<AliasLine>)

  /** One line of the on-demand probe report. The loss is `None` where f64 would give NaN. */
  datatype ReportLine =
    | AllSucceeded(alias: string, avg: nat)
    | AllFailed(alias: string)
    | PartlySucceeded(alias: string, avg: nat, loss: Option<real>)

  datatype Text =
    | SubscriptionEnabled                  // reply to an admin's /start
    | SubscriptionCancelled                // reply to an admin's /stop
    | Testing                              // the /isonline placeholder
    | ProbeReport(lines: seq<ReportLine>)  // the finished /isonline report
    | UptimeStatus(report: UptimeReport)   // the /uptime message
    | GraphFailed                          // /graph could not draw the chart
    | UptimeFailed                         // /uptime could not read the store

  /** A request to the Telegram API. `Edit` replaces the text of the `/isonline` placeholder
      message, addressed by its id; `DrawGraph` hands the chat over to the chart command, whose own requests are not
      modelled. */
  datatype Action = Send(chat: int, text: Text) | Edit(chat: int, text: Text) | DrawGraph(chat: int)
}
