/** The notification bell of components/ui/notification.tsx: the number of
    unread notifications, the badge on the bell, and the age each
    notification shows. Timestamps are milliseconds; the clock is a
    parameter. */
module Notifications {
  import opened Optional
  import opened Seqs
  import opened Strings

  datatype Kind = Info | Success | Warning | Error

  datatype Notification = Notification(id: string, kind: Kind, title: string, message: string, timestamp: int, read: bool)

  function IsUnread(n: Notification): bool { !n.read }
  function IsRead(n: Notification): bool { n.read }

  /** `notifications.filter(n => !n.read).length`. */
  function UnreadCount(ns: seq<Notification>): nat {
    Count(ns, IsUnread)
  }

  /** Every notification is either unread or read, so the unread count is
      the number of notifications less the read ones. */
  lemma {:induction false} UnreadComplement(ns: seq<Notification>)
    ensures UnreadCount(ns) + Count(ns, IsRead) == |ns|
    ensures UnreadCount(ns) == 0 <==> forall i :: 0 <= i < |ns| ==> ns[i].read
  {
    if ns != [] {
      UnreadComplement(ns[1..]);
      CountFirst(ns, IsUnread);
      CountFirst(ns, IsRead);
      assert forall i :: 1 <= i < |ns| ==> ns[i] == ns[1..][i - 1];
    }
  }

  /** The largest count the badge spells out. */
  const BadgeMax: nat := 9

  /** The badge on the bell: none without unread notifications, "9+" above
      nine, the count otherwise. */
  function Badge(unread: nat): (r: Option<string>)
    ensures r.Some? <==> unread > 0
    ensures r == Some("9+") <==> unread > BadgeMax
    ensures r.Some? && unread <= BadgeMax ==> |r.value| == 1 && IsDigit(r.value[0]) && ParseDigits(r.value) == unread
  {
    if unread > 0 then
      if unread > BadgeMax then Some("9+")
      else
        NatToStringRoundTrip(unread);
        assert NatToString(unread) != "9+" by {
          assert IsDigit(NatToString(unread)[|NatToString(unread)| - 1]);
        }
        assert |NatToString(unread)| == 1 by {
          if |NatToString(unread)| > 1 {
            NatToStringShort(unread);
          }
        }
        Some(NatToString(unread))
    else None
  }

  /** A number below ten is written with one digit. */
  lemma NatToStringShort(n: nat)
    requires n < 10
    ensures |NatToString(n)| == 1
  {
  }

  /** The bell shows a badge exactly when some notification is unread. */
  lemma BadgeShownIffUnread(ns: seq<Notification>)
    ensures Badge(UnreadCount(ns)).Some? <==> exists i :: 0 <= i < |ns| && !ns[i].read
  {
    UnreadComplement(ns);
  }

  const MinuteMillis: int := 60000
  const HourMillis: int := 3600000
  const DayMillis: int := 86400000

  /** `formatTime`: whole minutes, hours and days are floors of the
      elapsed milliseconds, which Dafny's division by a positive divisor
      computes also for a timestamp in the future. */
  function FormatTime(timestamp: int, now: int): (r: string)
    ensures r == "Just now" <==> now - timestamp < MinuteMillis
  {
    var diff := now - timestamp;
    var minutes := diff / MinuteMillis;
    var hours := diff / HourMillis;
    var days := diff / DayMillis;
    if minutes < 1 then "Just now"
    else if minutes < 60 then AgeDiffers(minutes, "m ago"); NatToString(minutes) + "m ago"
    else if hours < 24 then AgeDiffers(hours, "h ago"); NatToString(hours) + "h ago"
    else AgeDiffers(days, "d ago"); NatToString(days) + "d ago"
  }

  /** A counted age starts with a digit, so it is never "Just now". */
  lemma AgeDiffers(n: nat, unit: string)
    ensures NatToString(n) + unit != "Just now"
  {
    assert (NatToString(n) + unit)[0] == NatToString(n)[0];
    assert IsDigit(NatToString(n)[0]);
  }

  /** A notification from the future reads "Just now". */
  lemma FutureIsJustNow(timestamp: int, now: int)
    requires timestamp > now
    ensures FormatTime(timestamp, now) == "Just now"
  {
  }

  /** From one to 59 whole minutes the age counts minutes. */
  lemma FormatMinutes(timestamp: int, now: int, m: nat)
    requires 1 <= m < 60
    requires MinuteMillis * m <= now - timestamp < MinuteMillis * (m + 1)
    ensures FormatTime(timestamp, now) == NatToString(m) + "m ago"
  {
    assert (now - timestamp) / MinuteMillis == m;
  }

  /** From one to 23 whole hours the age counts hours. */
  lemma FormatHours(timestamp: int, now: int, h: nat)
    requires 1 <= h < 24
    requires HourMillis * h <= now - timestamp < HourMillis * (h + 1)
    ensures FormatTime(timestamp, now) == NatToString(h) + "h ago"
  {
    var diff := now - timestamp;
    assert diff / HourMillis == h;
    assert diff / MinuteMillis >= 60;
  }

  /** From one whole day on the age counts days. */
  lemma FormatDays(timestamp: int, now: int, d: nat)
    requires 1 <= d
    requires DayMillis * d <= now - timestamp < DayMillis * (d + 1)
    ensures FormatTime(timestamp, now) == NatToString(d) + "d ago"
  {
    var diff := now - timestamp;
    assert diff / DayMillis == d;
    assert diff / HourMillis >= 24;
    assert diff / MinuteMillis >= 60;
  }
}
