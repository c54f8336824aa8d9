/** The read-only dashboard routes of backend/routes/auth.js: the seven-day view series of
    `/summary` and the message mapping of `/notifications`. */
module AuthSummary {
  import opened Common
  import opened Text
  import PostRoutes

  // ---------------------------------------------------------------------------------
  // The last seven days.

  /** One point of the daily-view chart. */
  datatype DayViews = DayViews(day: string, views: nat)

  /** Short weekday names starting from Thursday, the weekday of day 0 (1 January 1970). */
  const Weekdays: seq<string> := ["Thu", "Fri", "Sat", "Sun", "Mon", "Tue", "Wed"]

  /** `toLocaleDateString('en-US', { weekday: 'short' })` of the day numbered `day`. */
  function WeekdayName(day: int): (r: string)
    ensures r == Weekdays[day % 7]
  {
    Weekdays[day % 7]
  }

  /** The point for one day: its weekday and the stored summary's views, 0 when there is
      no summary for that date. */
  function PointOf(summaries: map<int, PostRoutes.DaySummary>, day: int): DayViews
  {
    DayViews(WeekdayName(day), PostRoutes.SummaryOf(summaries, day).views)
  }

  /** The series the loop builds: the six days before `today`, then `today`, oldest first. */
  function LastSevenDays(summaries: map<int, PostRoutes.DaySummary>, today: int): (r: seq<DayViews>)
    ensures |r| == 7
    ensures forall k :: 0 <= k < 7 ==> r[k] == PointOf(summaries, today - 6 + k)
  {
    seq(7, k requires 0 <= k < 7 => PointOf(summaries, today - 6 + k))
  }

  /** The `for (let i = 6; i >= 0; i--)` loop with its `push`. */
  method BuildLastSevenDays(summaries: map<int, PostRoutes.DaySummary>, today: int) returns (r: seq<DayViews>)
    ensures r == LastSevenDays(summaries, today)
  {
    r := [];
    var i := 6;
    while i >= 0
      invariant -1 <= i <= 6
      invariant |r| == 6 - i
      invariant forall k :: 0 <= k < |r| ==> r[k] == PointOf(summaries, today - 6 + k)
    {
      var d := today - i;
      var views := if d in summaries then summaries[d].views else 0;
      r := r + [DayViews(WeekdayName(d), views)];
      i := i - 1;
    }
  }

  /** Seven consecutive days have seven different weekday names, so every label of the
      series is distinct and the last one is today's. */
  lemma LastSevenDaysLabels(summaries: map<int, PostRoutes.DaySummary>, today: int)
    ensures var r := LastSevenDays(summaries, today);
      r[6].day == WeekdayName(today) &&
      forall j, k :: 0 <= j < k < 7 ==> r[j].day != r[k].day
  {
    var r := LastSevenDays(summaries, today);
    forall j, k | 0 <= j < k < 7
      ensures r[j].day != r[k].day
    {
      WeekdaysDiffer(today - 6 + j, today - 6 + k);
    }
  }

  /** Two days less than a week apart fall on different weekdays. */
  lemma WeekdaysDiffer(a: int, b: int)
    requires a < b < a + 7
    ensures WeekdayName(a) != WeekdayName(b)
  {
    assert a % 7 != b % 7;
    assert forall x, y :: 0 <= x < y < 7 ==> Weekdays[x] != Weekdays[y];
  }

  /** A counted view shows up at once: today's point goes up by one and the six earlier
      points are unchanged. */
  lemma CountedViewShows(summaries: map<int, PostRoutes.DaySummary>, today: int, slug: string)
    ensures var before, after := LastSevenDays(summaries, today), LastSevenDays(PostRoutes.CountView(summaries, today, slug), today);
      after[6].views == before[6].views + 1 && after[..6] == before[..6]
  {
    var before := LastSevenDays(summaries, today);
    var after := LastSevenDays(PostRoutes.CountView(summaries, today, slug), today);
    assert forall k :: 0 <= k < 6 ==> after[k] == before[k];
  }

  // ---------------------------------------------------------------------------------
  // Notifications.

  /** An audit record: the acting user's email ("" when absent) and the post it concerns. */
  datatype AuditLog = AuditLog(action: string, userEmail: string, targetId: Option<nat>)

  datatype Kind = Success | Info | Alert

  datatype Notification = Notification(kind: Kind, message: string)

  const NotificationLimit: nat := 15

  const CreatedMessage: string := "A new post was created."
  const UpdatedMessage: string := "A post was updated."
  const DeletedMessage: string := "A post was deleted."
  const LoggedIn: string := " logged in."

  /** `action.replace(/_/g, " ")`. */
  function Spaced(s: string): (r: string)
    ensures |r| == |s|
    ensures forall i :: 0 <= i < |s| ==> r[i] == (if s[i] == '_' then ' ' else s[i])
  {
    if s == [] then [] else [if s[0] == '_' then ' ' else s[0]] + Spaced(s[1..])
  }

  /** The `switch` on the action. */
  function BaseNotification(log: AuditLog): Notification
  {
    match log.action
    case "create_post" => Notification(Success, CreatedMessage)
    case "update_post" => Notification(Info, UpdatedMessage)
    case "delete_post" => Notification(Alert, DeletedMessage)
    case "login" => Notification(Info, (if log.userEmail != "" then log.userEmail else "Admin") + LoggedIn)
    case _ => Notification(Info, Spaced(log.action))
  }

  /** One notification: the action's message, followed by " (title)" when the target post
      still exists with a non-empty title. `titles` maps post ids to titles. */
  function NotificationOf(log: AuditLog, titles: map<nat, string>): Notification
  {
    var n := BaseNotification(log);
    if log.targetId.Some? && log.targetId.value in titles && titles[log.targetId.value] != "" then
      n.(message := n.message + " (" + titles[log.targetId.value] + ")")
    else n
  }

  /** The route's answer for the audit records `logs`, newest first. */
  function Notifications(logs: seq<AuditLog>, titles: map<nat, string>): (r: seq<Notification>)
    ensures |r| == Min(|logs|, NotificationLimit)
    ensures forall i :: 0 <= i < |r| ==> r[i] == NotificationOf(logs[i], titles)
  {
    var latest := Slice(logs, 0, NotificationLimit);
    seq(|latest|, i requires 0 <= i < |latest| => NotificationOf(latest[i], titles))
  }

  /** Only a creation is a success and only a deletion an alert; everything else is info. */
  lemma NotificationKind(log: AuditLog, titles: map<nat, string>)
    ensures NotificationOf(log, titles).kind == Success <==> log.action == "create_post"
    ensures NotificationOf(log, titles).kind == Alert <==> log.action == "delete_post"
  {
  }

  /** The title suffix is appended exactly when the target post has a title, and the
      action's message always comes first. */
  lemma NotificationTitle(log: AuditLog, titles: map<nat, string>)
    ensures var m, base := NotificationOf(log, titles).message, BaseNotification(log).message;
      StartsWith(m, base) &&
      (log.targetId.Some? && log.targetId.value in titles && titles[log.targetId.value] != "" ==>
        m == base + " (" + titles[log.targetId.value] + ")") &&
      (!(log.targetId.Some? && log.targetId.value in titles && titles[log.targetId.value] != "") ==> m == base)
  {
    var base := BaseNotification(log).message;
    if log.targetId.Some? && log.targetId.value in titles && titles[log.targetId.value] != "" {
      StartsWithConcat(base, base, " (" + titles[log.targetId.value] + ")");
      assert base + " (" + titles[log.targetId.value] + ")" == base + (" (" + titles[log.targetId.value] + ")");
    }
    assert StartsWith(base, base);
  }

  /** A login names the user, or "Admin" when the record has no email. */
  lemma LoginNotification(log: AuditLog)
    requires log.action == "login"
    ensures var m := BaseNotification(log).message;
      StartsWith(m, if log.userEmail != "" then log.userEmail else "Admin")
  {
    var who := if log.userEmail != "" then log.userEmail else "Admin";
    assert StartsWith(who, who);
    StartsWithConcat(who, who, LoggedIn);
  }

  /** An unlisted action is shown as its name with every underscore turned into a space. */
  lemma OtherActionSpaced(log: AuditLog)
    requires log.action !in ["create_post", "update_post", "delete_post", "login"]
    ensures BaseNotification(log).kind == Info
    ensures '_' !in BaseNotification(log).message
    ensures |BaseNotification(log).message| == |log.action|
  {
  }
}
