/**
 * The notification bell in the page header: an unread counter polled from the
 * server, the list of notifications loaded when the dropdown opens, and the
 * dropdown's open/closed flag. Marking one or all notifications read updates
 * the local state optimistically, without re-fetching the list.
 */
module NotificationBell {
  import opened Wrappers
  import Decimal

  /** A notification as the server sends it. `kind` is the field named `type`. */
  datatype Notification = Notification(
    id: int,
    title: string,
    message: string,
    kind: string,
    read: bool,
    link: Option<string>,
    createdAt: string)

  /** Most notifications the dropdown lists. */
  const DisplayCap: nat := 20

  /** Badge text once the count has two digits. */
  const ManyUnread := "9+"

  /**
   * A notification's link is followed only when it is truthy in JavaScript:
   * neither `null` nor the empty string.
   */
  predicate HasLink(n: Notification) {
    n.link.Some? && n.link.value != ""
  }

  function Max(a: int, b: int): int {
    if a >= b then a else b
  }

  // ---------------------------------------------------------------------------
  // The list updates behind "read" and "mark all read"
  // ---------------------------------------------------------------------------

  /** The list after the entry (or entries) with the given id are flagged read. */
  function MarkRead(ns: seq<Notification>, id: int): seq<Notification> {
    if ns == [] then []
    else [if ns[0].id == id then ns[0].(read := true) else ns[0]] + MarkRead(ns[1..], id)
  }

  /** The list after every entry is flagged read. */
  function MarkAllRead(ns: seq<Notification>): seq<Notification> {
    if ns == [] then [] else [ns[0].(read := true)] + MarkAllRead(ns[1..])
  }

  /**
   * Marking one notification read keeps the length and the order, sets `read`
   * exactly on the entries with that id and leaves every other field of every
   * entry as it was.
   */
  lemma {:induction false} MarkReadChangesOnlyThatEntry(ns: seq<Notification>, id: int)
    ensures |MarkRead(ns, id)| == |ns|
    ensures forall i :: 0 <= i < |ns| ==>
      MarkRead(ns, id)[i].read == (ns[i].read || ns[i].id == id) &&
      MarkRead(ns, id)[i].(read := ns[i].read) == ns[i]
  {
    if ns != [] {
      MarkReadChangesOnlyThatEntry(ns[1..], id);
      forall i | 0 <= i < |ns|
        ensures MarkRead(ns, id)[i].read == (ns[i].read || ns[i].id == id)
        ensures MarkRead(ns, id)[i].(read := ns[i].read) == ns[i]
      {
        if i > 0 {
          assert MarkRead(ns, id)[i] == MarkRead(ns[1..], id)[i - 1];
        }
      }
    }
  }

  /** Marking the same notification read twice is the same as marking it once. */
  lemma {:induction false} MarkReadIdempotent(ns: seq<Notification>, id: int)
    ensures MarkRead(MarkRead(ns, id), id) == MarkRead(ns, id)
  {
    if ns != [] {
      MarkReadIdempotent(ns[1..], id);
      assert MarkRead(ns, id)[1..] == MarkRead(ns[1..], id);
    }
  }

  /**
   * Mark-all-read keeps the length and the order, leaves every entry read and
   * changes no other field.
   */
  lemma {:induction false} MarkAllReadFlagsEveryEntry(ns: seq<Notification>)
    ensures |MarkAllRead(ns)| == |ns|
    ensures forall i :: 0 <= i < |ns| ==>
      MarkAllRead(ns)[i].read && MarkAllRead(ns)[i].(read := ns[i].read) == ns[i]
  {
    if ns != [] {
      MarkAllReadFlagsEveryEntry(ns[1..]);
      forall i | 1 <= i < |ns|
        ensures MarkAllRead(ns)[i] == MarkAllRead(ns[1..])[i - 1]
      {
      }
    }
  }

  // ---------------------------------------------------------------------------
  // The component's state
  // ---------------------------------------------------------------------------

  class Bell {
    var notifications: seq<Notification>
    var unreadCount: int
    var isOpen: bool

    /** Mounting: nothing loaded, count 0, dropdown closed. */
    constructor ()
      ensures notifications == [] && unreadCount == 0 && !isOpen
    {
      notifications := [];
      unreadCount := 0;
      isOpen := false;
    }

    /**
     * One poll of the unread count (on mount and every 30 seconds).
     * `count` is the server's answer, None when the request failed, in which
     * case the previous count stays.
     */
    method FetchUnreadCount(count: Option<int>)
      modifies this
      ensures unreadCount == if count.Some? then count.value else old(unreadCount)
      ensures notifications == old(notifications) && isOpen == old(isOpen)
    {
      if count.Some? {
        unreadCount := count.value;
      }
    }

    /**
     * The bell button. Opening (and only opening) fetches the list; `fetched`
     * is that request's answer, None when it failed, in which case the
     * previously loaded list stays. The dropdown flips either way.
     */
    method Toggle(fetched: Option<seq<Notification>>)
      modifies this
      ensures isOpen == !old(isOpen)
      ensures notifications == if !old(isOpen) && fetched.Some? then fetched.value else old(notifications)
      ensures unreadCount == old(unreadCount)
    {
      if !isOpen {
        if fetched.Some? {
          notifications := fetched.value;
        }
      }
      isOpen := !isOpen;
    }

    /** A mouse press outside the dropdown closes it. */
    method ClickOutside()
      modifies this
      ensures !isOpen
      ensures notifications == old(notifications) && unreadCount == old(unreadCount)
    {
      isOpen := false;
    }

    /**
     * A click on notification n as it was rendered. For an unread one the
     * server is told first (`marked` is whether that request succeeded); if it
     * fails the error propagates and nothing else happens. Otherwise the count
     * drops by one, floored at zero, and the entries with n's id are flagged
     * read. Then, if n has a link, the dropdown closes and the router is sent
     * there (`navigateTo`).
     */
    method Read(n: Notification, marked: bool) returns (rejected: bool, navigateTo: Option<string>)
      modifies this
      ensures rejected <==> !n.read && !marked
      ensures rejected ==>
        navigateTo == None && notifications == old(notifications) &&
        unreadCount == old(unreadCount) && isOpen == old(isOpen)
      ensures !rejected ==>
        unreadCount == (if n.read then old(unreadCount) else Max(0, old(unreadCount) - 1)) &&
        notifications == (if n.read then old(notifications) else MarkRead(old(notifications), n.id)) &&
        navigateTo == (if HasLink(n) then n.link else None) &&
        isOpen == (old(isOpen) && !HasLink(n))
    {
      rejected, navigateTo := false, None;
      if !n.read {
        if !marked {
          rejected := true;
          return;
        }
        unreadCount := Max(0, unreadCount - 1);
        notifications := MarkRead(notifications, n.id);
      }
      if HasLink(n) {
        navigateTo := n.link;
        isOpen := false;
      }
    }

    /**
     * "Mark all read". `done` is whether the server call succeeded; on failure
     * the error propagates and nothing changes, otherwise the count is zero
     * and every loaded entry is flagged read.
     */
    method MarkAllAsRead(done: bool) returns (rejected: bool)
      modifies this
      ensures rejected <==> !done
      ensures isOpen == old(isOpen)
      ensures unreadCount == if done then 0 else old(unreadCount)
      ensures notifications == if done then MarkAllRead(old(notifications)) else old(notifications)
    {
      rejected := !done;
      if done {
        unreadCount := 0;
        notifications := MarkAllRead(notifications);
      }
    }
  }

  // ---------------------------------------------------------------------------
  // What is rendered
  // ---------------------------------------------------------------------------

  /**
   * The badge on the bell: absent unless some notification is unread, "9+"
   * from ten on, otherwise the count's decimal text.
   */
  function BadgeLabel(unreadCount: int): (badge: Option<string>)
    ensures badge.Some? <==> unreadCount > 0
    ensures unreadCount > 9 ==> badge == Some(ManyUnread)
    ensures 0 < unreadCount <= 9 ==>
      badge.Some? && |badge.value| == 1 && Decimal.AllDigits(badge.value) &&
      Decimal.ParseNat(badge.value) == unreadCount
  {
    if unreadCount <= 0 then None
    else if unreadCount > 9 then Some(ManyUnread)
    else
      Decimal.ParseNatToString(unreadCount);
      Some(Decimal.NatToString(unreadCount))
  }

  /** The opened dropdown. */
  datatype Dropdown = Dropdown(markAllButton: bool, items: seq<Notification>, emptyMessage: bool)

  /** The whole component: the badge, and the dropdown when it is open. */
  datatype BellView = BellView(badge: Option<string>, dropdown: Option<Dropdown>)

  function View(notifications: seq<Notification>, unreadCount: int, isOpen: bool): (v: BellView)
    ensures v.badge == BadgeLabel(unreadCount)
    ensures v.dropdown.Some? <==> isOpen
    ensures isOpen ==>
      var d := v.dropdown.value;
      (d.markAllButton <==> unreadCount > 0) &&
      (d.emptyMessage <==> notifications == []) &&
      |d.items| == (if |notifications| < DisplayCap then |notifications| else DisplayCap) &&
      forall i :: 0 <= i < |d.items| ==> d.items[i] == notifications[i]
  {
    var shown := if |notifications| < DisplayCap then notifications else notifications[..DisplayCap];
    BellView(
      BadgeLabel(unreadCount),
      if isOpen then Some(Dropdown(unreadCount > 0, if notifications == [] then [] else shown, notifications == []))
      else None)
  }

  // ---------------------------------------------------------------------------
  // Relative timestamps
  // ---------------------------------------------------------------------------

  /** The bucket a notification's age falls into. */
  datatype Elapsed = JustNow | MinutesAgo(minutes: nat) | HoursAgo(hours: nat) | DaysAgo(days: nat)

  const MinuteMs: int := 60000
  const HourMs: int := 3600000
  const DayMs: int := 86400000

  /**
   * The bucket of an age of `diff` milliseconds (now minus creation time,
   * negative for a timestamp in the future). Whole minutes, hours and days are
   * taken by floor division, so each bucket holds exactly the ages from its
   * count up to but excluding the next.
   */
  function Bucket(diff: int): (e: Elapsed)
    ensures e == JustNow <==> diff < MinuteMs
    ensures e.MinutesAgo? ==> 1 <= e.minutes < 60 && e.minutes * MinuteMs <= diff < (e.minutes + 1) * MinuteMs
    ensures e.HoursAgo? ==> 1 <= e.hours < 24 && e.hours * HourMs <= diff < (e.hours + 1) * HourMs
    ensures e.DaysAgo? ==> e.days >= 1 && e.days * DayMs <= diff < (e.days + 1) * DayMs
  {
    // Dafny's division by a positive divisor rounds toward negative infinity,
    // as Math.floor does.
    var minutes := diff / MinuteMs;
    assert minutes * MinuteMs <= diff < (minutes + 1) * MinuteMs;
    if minutes < 1 then JustNow
    else if minutes < 60 then MinutesAgo(minutes)
    else
      var hours := minutes / 60;
      assert hours * 60 <= minutes < hours * 60 + 60;
      if hours < 24 then HoursAgo(hours)
      else
        var days := hours / 24;
        assert days * 24 <= hours < days * 24 + 24;
        DaysAgo(days)
  }

  const JustNowText := "たった今"
  const MinutesSuffix := "分前"
  const HoursSuffix := "時間前"
  const DaysSuffix := "日前"

  function Render(e: Elapsed): string {
    match e
    case JustNow => JustNowText
    case MinutesAgo(m) => Decimal.NatToString(m) + MinutesSuffix
    case HoursAgo(h) => Decimal.NatToString(h) + HoursSuffix
    case DaysAgo(d) => Decimal.NatToString(d) + DaysSuffix
  }

  /** The relative time shown under each notification. */
  function FormatTime(diff: int): string {
    Render(Bucket(diff))
  }

  /** Reads a relative time back into its bucket; None for any other text. */
  function ParseElapsed(s: string): Option<Elapsed> {
    if s == JustNowText then Some(JustNow)
    else if |s| >= 3 && s[|s| - 3..] == HoursSuffix && Decimal.AllDigits(s[..|s| - 3]) then
      Some(HoursAgo(Decimal.ParseNat(s[..|s| - 3])))
    else if |s| >= 2 && s[|s| - 2..] == MinutesSuffix && Decimal.AllDigits(s[..|s| - 2]) then
      Some(MinutesAgo(Decimal.ParseNat(s[..|s| - 2])))
    else if |s| >= 2 && s[|s| - 2..] == DaysSuffix && Decimal.AllDigits(s[..|s| - 2]) then
      Some(DaysAgo(Decimal.ParseNat(s[..|s| - 2])))
    else None
  }

  lemma ParseMinutes(digits: string)
    requires |digits| >= 1 && Decimal.AllDigits(digits)
    ensures ParseElapsed(digits + MinutesSuffix) == Some(MinutesAgo(Decimal.ParseNat(digits)))
  {
    var s := digits + MinutesSuffix;
    assert s[..|s| - 2] == digits && s[|s| - 2..] == MinutesSuffix;
    assert s != JustNowText by { assert s[0] == digits[0]; }
    assert s[|s| - 3..] != HoursSuffix by { assert s[|s| - 2] == '分'; }
  }

  lemma ParseHours(digits: string)
    requires |digits| >= 1 && Decimal.AllDigits(digits)
    ensures ParseElapsed(digits + HoursSuffix) == Some(HoursAgo(Decimal.ParseNat(digits)))
  {
    var s := digits + HoursSuffix;
    assert s[..|s| - 3] == digits && s[|s| - 3..] == HoursSuffix;
    assert s != JustNowText by { assert s[0] == digits[0]; }
  }

  lemma ParseDays(digits: string)
    requires |digits| >= 1 && Decimal.AllDigits(digits)
    ensures ParseElapsed(digits + DaysSuffix) == Some(DaysAgo(Decimal.ParseNat(digits)))
  {
    var s := digits + DaysSuffix;
    assert s[..|s| - 2] == digits && s[|s| - 2..] == DaysSuffix;
    assert s != JustNowText by { assert s[0] == digits[0]; }
    assert s[|s| - 3..] != HoursSuffix by { assert s[|s| - 3] == digits[|digits| - 1]; }
    assert s[|s| - 2..] != MinutesSuffix by { assert s[|s| - 2] == '日'; }
  }

  /**
   * The rendered text determines the bucket: reading it back gives the bucket
   * it was rendered from, so no two buckets share a text.
   */
  lemma FormatTimeReadsBack(diff: int)
    ensures ParseElapsed(FormatTime(diff)) == Some(Bucket(diff))
  {
    match Bucket(diff)
    case JustNow =>
    case MinutesAgo(m) =>
      ParseMinutes(Decimal.NatToString(m));
      Decimal.ParseNatToString(m);
    case HoursAgo(h) =>
      ParseHours(Decimal.NatToString(h));
      Decimal.ParseNatToString(h);
    case DaysAgo(d) =>
      ParseDays(Decimal.NatToString(d));
      Decimal.ParseNatToString(d);
  }
}
