/** The sync status badge of components/ui/sync-status.tsx: the status
    record the sync service reports is shown as an icon, a headline, a
    colour and a description, all chosen by one precedence (syncing, then
    offline, then backend down, then last sync known, then never synced),
    plus a sync-now button and two warning badges. Parsing the stored
    timestamp into milliseconds and reading the clock are parameters. */
module SyncStatusView {
  import opened Optional
  import opened Strings
  import opened Auth

  /** What `syncService.getSyncStatus()` hands to the component. */
  datatype StatusRecord = StatusRecord(isOnline: bool, isSyncing: bool, lastSync: Option<string>, backendAvailable: bool)

  /** The five situations the badge distinguishes. */
  datatype Display = Syncing | Offline | BackendDown | Synced | NeverSynced

  datatype Icon = SpinningRefresh | WifiOffIcon | ServerIcon | CheckCircleIcon | AlertCircleIcon

  /** The state every `getStatus*` function tests for, in their order. */
  function State(s: StatusRecord): (r: Display)
    ensures r == Syncing <==> s.isSyncing
    ensures r == Offline <==> !s.isSyncing && !s.isOnline
    ensures r == BackendDown <==> !s.isSyncing && s.isOnline && !s.backendAvailable
    ensures r == Synced <==> !s.isSyncing && s.isOnline && s.backendAvailable && Truthy(s.lastSync)
    ensures r == NeverSynced <==> !s.isSyncing && s.isOnline && s.backendAvailable && !Truthy(s.lastSync)
  {
    if s.isSyncing then Syncing
    else if !s.isOnline then Offline
    else if !s.backendAvailable then BackendDown
    else if Truthy(s.lastSync) then Synced
    else NeverSynced
  }

  /** `getStatusIcon()`. */
  function StatusIcon(s: StatusRecord): Icon {
    if s.isSyncing then SpinningRefresh
    else if !s.isOnline then WifiOffIcon
    else if !s.backendAvailable then ServerIcon
    else if Truthy(s.lastSync) then CheckCircleIcon
    else AlertCircleIcon
  }

  /** `getStatusColor()`. */
  function StatusColor(s: StatusRecord): string {
    if s.isSyncing then "bg-blue-50 border-blue-200 text-blue-800"
    else if !s.isOnline then "bg-red-50 border-red-200 text-red-800"
    else if !s.backendAvailable then "bg-orange-50 border-orange-200 text-orange-800"
    else if Truthy(s.lastSync) then "bg-green-50 border-green-200 text-green-800"
    else "bg-yellow-50 border-yellow-200 text-yellow-800"
  }

  /** `getStatusDescription()`. */
  function StatusDescription(s: StatusRecord): string {
    if s.isSyncing then "Syncing with cloud..."
    else if !s.isOnline then "No Internet Connection"
    else if !s.backendAvailable then "Cloud Server Offline"
    else if Truthy(s.lastSync) then "Cloud Sync Active"
    else "Ready to Sync"
  }

  /** `getStatusText()`, given the last sync time parsed to milliseconds and
      the current time. */
  function StatusText(s: StatusRecord, lastSyncMillis: int, now: int): string {
    if s.isSyncing then "Syncing to Cloud..."
    else if !s.isOnline then "Offline Mode"
    else if !s.backendAvailable then "Backend Unavailable"
    else if Truthy(s.lastSync) then AgeText(now - lastSyncMillis)
    else "Never Synced"
  }

  const MinuteMillis: int := 60000
  const HourMillis: int := 3600000

  /** The headline for a known last sync, from the elapsed milliseconds:
      whole minutes are the floor of elapsed / 60000, which Dafny's division
      by a positive divisor computes also for a negative (future) time. */
  function AgeText(elapsed: int): (r: string)
    ensures r == "Just Synced" <==> elapsed < MinuteMillis
  {
    var minutes := elapsed / MinuteMillis;
    if minutes < 1 then "Just Synced"
    else if minutes < 60 then "Synced " + NatToString(minutes) + "m ago"
    else "Synced " + NatToString(minutes / 60) + "h ago"
  }

  /** One table per display: what the icon, colour, description and fixed
      headline are for each state. */
  function IconFor(d: Display): Icon {
    match d
    case Syncing => SpinningRefresh
    case Offline => WifiOffIcon
    case BackendDown => ServerIcon
    case Synced => CheckCircleIcon
    case NeverSynced => AlertCircleIcon
  }

  function ColorFor(d: Display): string {
    match d
    case Syncing => "bg-blue-50 border-blue-200 text-blue-800"
    case Offline => "bg-red-50 border-red-200 text-red-800"
    case BackendDown => "bg-orange-50 border-orange-200 text-orange-800"
    case Synced => "bg-green-50 border-green-200 text-green-800"
    case NeverSynced => "bg-yellow-50 border-yellow-200 text-yellow-800"
  }

  function DescriptionFor(d: Display): string {
    match d
    case Syncing => "Syncing with cloud..."
    case Offline => "No Internet Connection"
    case BackendDown => "Cloud Server Offline"
    case Synced => "Cloud Sync Active"
    case NeverSynced => "Ready to Sync"
  }

  function TextFor(d: Display, elapsed: int): string {
    match d
    case Syncing => "Syncing to Cloud..."
    case Offline => "Offline Mode"
    case BackendDown => "Backend Unavailable"
    case Synced => AgeText(elapsed)
    case NeverSynced => "Never Synced"
  }

  /** The four if-chains agree: each shows what its table gives for the one
      state the precedence selects. */
  lemma DisplayAgrees(s: StatusRecord, lastSyncMillis: int, now: int)
    ensures StatusIcon(s) == IconFor(State(s))
    ensures StatusColor(s) == ColorFor(State(s))
    ensures StatusDescription(s) == DescriptionFor(State(s))
    ensures StatusText(s, lastSyncMillis, now) == TextFor(State(s), now - lastSyncMillis)
  {
  }

  /** No two states share an icon or a description, so each of them alone
      tells the user which state holds. */
  lemma DisplayDistinct(d: Display, e: Display)
    requires d != e
    ensures IconFor(d) != IconFor(e)
    ensures DescriptionFor(d) != DescriptionFor(e)
  {
    assert DescriptionFor(d)[0] != DescriptionFor(e)[0] || DescriptionFor(d)[7] != DescriptionFor(e)[7];
  }

  /** Between one and 59 whole minutes the headline counts minutes. */
  lemma AgeInMinutes(elapsed: int, m: nat)
    requires 1 <= m < 60
    requires MinuteMillis * m <= elapsed < MinuteMillis * (m + 1)
    ensures AgeText(elapsed) == "Synced " + NatToString(m) + "m ago"
  {
    assert elapsed / MinuteMillis == m;
  }

  /** From one hour on the headline counts whole hours: the floor of the
      floor of minutes by 60 is the floor of the elapsed hours. */
  lemma AgeInHours(elapsed: int, h: nat)
    requires 1 <= h
    requires HourMillis * h <= elapsed < HourMillis * (h + 1)
    ensures AgeText(elapsed) == "Synced " + NatToString(h) + "h ago"
  {
    var minutes := elapsed / MinuteMillis;
    assert 60 * h * MinuteMillis <= elapsed < (60 * h + 60) * MinuteMillis;
    assert 60 * h <= minutes < 60 * h + 60;
    assert minutes / 60 == h;
  }

  /** The "Sync Now" button. */
  predicate ShowSyncButton(s: StatusRecord) {
    s.isOnline && s.backendAvailable && !s.isSyncing
  }

  /** The "No Internet" badge. */
  predicate ShowNoInternet(s: StatusRecord) {
    !s.isOnline
  }

  /** The "Server Offline" badge. */
  predicate ShowServerOffline(s: StatusRecord) {
    s.isOnline && !s.backendAvailable
  }

  /** The button is offered exactly in the two idle states; the badges
      repeat the offline and backend-down warnings (also while a sync runs);
      at most one of the three is visible. */
  lemma ControlsFollowState(s: StatusRecord)
    ensures ShowSyncButton(s) <==> State(s) == Synced || State(s) == NeverSynced
    ensures State(s) == Offline ==> ShowNoInternet(s)
    ensures State(s) == BackendDown ==> ShowServerOffline(s)
    ensures ShowNoInternet(s) ==> State(s) == Offline || State(s) == Syncing
    ensures ShowServerOffline(s) ==> State(s) == BackendDown || State(s) == Syncing
    ensures !(ShowSyncButton(s) && ShowNoInternet(s))
    ensures !(ShowSyncButton(s) && ShowServerOffline(s))
    ensures !(ShowNoInternet(s) && ShowServerOffline(s))
  {
  }

  /** `handleManualSync`: the records the badge shows, in order, after a
      click. A click during a sync shows nothing new; otherwise the badge
      turns to syncing and then shows the record the service reports once
      `manualSync` has settled. */
  function ManualSyncClick(s: StatusRecord, refreshed: StatusRecord): (r: seq<StatusRecord>)
    ensures s.isSyncing <==> r == []
    ensures r != [] ==> |r| == 2 && State(r[0]) == Syncing && !ShowSyncButton(r[0]) && r[1] == refreshed
    ensures r != [] ==> r[0].isOnline == s.isOnline && r[0].lastSync == s.lastSync && r[0].backendAvailable == s.backendAvailable
  {
    if s.isSyncing then [] else [s.(isSyncing := true), refreshed]
  }
}
