/** The main view model: loading the sitemap list, the loading flag that
    gates the refresh command, and the choice of the sitemap to open.
    Messages sent through the messenger are returned as a sequence; the
    loading flag changes only when a data-operation message is handled. */
module MainViewModel {
  import opened Common
  import opened Text
  import opened Models
  import SS = SettingsService

  datatype OperationState = Started | Completed

  /** The messages LoadData sends. */
  datatype MainMessage = DataOperation(state: OperationState) | NotConfiguredInfo | ConnectionError(message: string)

  /** What fetching the sitemap list gives: a list (null when no
      connection is configured), an OpenHABException with its message,
      or another exception. */
  datatype SitemapFetch = Listed(sitemaps: Option<seq<Sitemap>>) | ThrewOpenHAB(message: string) | ThrewOther

  /** The refresh command can run exactly while no data is loading. */
  function CanExecuteRefreshCommand(isDataLoading: bool): (r: bool)
    ensures r <==> !isDataLoading
  {
    !isDataLoading
  }

  /** The loading flag after handling a sequence of messages: Started sets
      it, Completed clears it, other messages leave it. */
  function LoadingAfter(isDataLoading: bool, messages: seq<MainMessage>): (r: bool)
    ensures (forall i | 0 <= i < |messages| :: !messages[i].DataOperation?) ==> r == isDataLoading
    ensures forall i | 0 <= i < |messages| && messages[i].DataOperation?
                        && (forall j | i < j < |messages| :: !messages[j].DataOperation?)
              :: r == (messages[i].state == Started)
  {
    if messages == [] then isDataLoading
    else
      var init := messages[..|messages| - 1];
      var before := LoadingAfter(isDataLoading, init);
      assert forall i | 0 <= i < |init| :: init[i] == messages[i];
      match messages[|messages| - 1]
      case DataOperation(Started) => true
      case DataOperation(Completed) => false
      case _ => before
  }

  /** The messages LoadData sends: Completed always comes last (it is sent
      from the finally block, also on the early return of a load that finds
      another one running); in between, a null list reports that nothing is
      configured and an OpenHABException a connection error. */
  function LoadMessages(isDataLoading: bool, cancelled: bool, fetch: SitemapFetch): (r: seq<MainMessage>)
    ensures |r| >= 1 && r[|r| - 1] == DataOperation(Completed)
    ensures isDataLoading ==> r == [DataOperation(Completed)]
    ensures !isDataLoading ==> 2 <= |r| <= 3 && r[0] == DataOperation(Started)
    ensures NotConfiguredInfo in r <==> !isDataLoading && !cancelled && fetch == Listed(None)
    ensures forall m :: ConnectionError(m) in r <==> !isDataLoading && !cancelled && fetch == ThrewOpenHAB(m)
  {
    if isDataLoading then [DataOperation(Completed)]
    else if cancelled then [DataOperation(Started), DataOperation(Completed)]
    else match fetch
      case Listed(None) => [DataOperation(Started), NotConfiguredInfo, DataOperation(Completed)]
      case ThrewOpenHAB(m) => [DataOperation(Started), ConnectionError(m), DataOperation(Completed)]
      case _ => [DataOperation(Started), DataOperation(Completed)]
  }

  /** Once the messages of a load are handled the flag is clear and
      refreshing is possible again, whatever path the load took. This holds
      too for a load that found another one running, so the flag clears
      while the first load is still at work. */
  lemma LoadEndsWithRefreshEnabled(isDataLoading: bool, cancelled: bool, fetch: SitemapFetch, before: bool)
    ensures CanExecuteRefreshCommand(LoadingAfter(before, LoadMessages(isDataLoading, cancelled, fetch)))
  {
  }

  /** While the Started message of a load that was not overlapped is
      handled and its Completed is not, refreshing is disabled. */
  lemma RefreshDisabledDuringLoad(cancelled: bool, fetch: SitemapFetch, before: bool, k: nat)
    requires 1 <= k < |LoadMessages(false, cancelled, fetch)|
    ensures !CanExecuteRefreshCommand(LoadingAfter(before, LoadMessages(false, cancelled, fetch)[..k]))
  {
    var r := LoadMessages(false, cancelled, fetch);
    if k == 2 {
      assert r[..k][..1] == [DataOperation(Started)];
    }
  }

  /** The index of the first sitemap with the given name, if any. */
  function FirstNamed(sitemaps: seq<Sitemap>, name: string): (r: Option<nat>)
    ensures r.None? <==> forall j :: 0 <= j < |sitemaps| ==> sitemaps[j].name != Some(name)
    ensures r.Some? ==> r.value < |sitemaps| && sitemaps[r.value].name == Some(name)
                        && forall j :: 0 <= j < r.value ==> sitemaps[j].name != Some(name)
  {
    if sitemaps == [] then None
    else if sitemaps[0].name == Some(name) then Some(0)
    else match FirstNamed(sitemaps[1..], name)
      case None => None
      case Some(i) => Some(i + 1)
  }

  /** OpenLastOrDefaultSitemap: the first sitemap named like the last one
      opened; the first sitemap when none was opened (blank name) or none
      has that name; null for an empty list. */
  function OpenLastOrDefaultSitemap(lastSitemap: Option<string>, sitemaps: seq<Sitemap>): (r: Option<Sitemap>)
    ensures r.None? <==> sitemaps == []
    ensures r.Some? ==> r.value in sitemaps
    ensures !IsNullOrWhiteSpace(lastSitemap) && (exists i :: 0 <= i < |sitemaps| && sitemaps[i].name == lastSitemap) ==>
      r.Some? && r.value.name == lastSitemap
      && exists i :: 0 <= i < |sitemaps| && sitemaps[i] == r.value && forall j :: 0 <= j < i ==> sitemaps[j].name != lastSitemap
    ensures IsNullOrWhiteSpace(lastSitemap) || (forall i :: 0 <= i < |sitemaps| ==> sitemaps[i].name != lastSitemap) ==>
      r == if sitemaps == [] then None else Some(sitemaps[0])
  {
    if IsNullOrWhiteSpace(lastSitemap) then
      if sitemaps == [] then None else Some(sitemaps[0])
    else match FirstNamed(sitemaps, lastSitemap.value)
      case None => if sitemaps == [] then None else Some(sitemaps[0])
      case Some(i) => Some(sitemaps[i])
  }

  /** Sitemaps?.Clear(). */
  function Cleared(sitemaps: Option<seq<Sitemap>>): (r: Option<seq<Sitemap>>)
    ensures r.Some? <==> sitemaps.Some?
    ensures r.Some? ==> r.value == []
  {
    if sitemaps.Some? then Some([]) else None
  }

  class MainViewModel {
    var isDataLoading: bool
    var sitemaps: Option<seq<Sitemap>>
    var selectedSitemap: Option<Sitemap>
    /** The settings options value the view model reads and updates. */
    var settings: Settings
    /** How many times item updates were started. */
    var itemUpdateStarts: nat

    constructor (settings: Settings)
      ensures !isDataLoading && sitemaps.None? && selectedSitemap.None?
      ensures this.settings == settings && itemUpdateStarts == 0
    {
      isDataLoading := false;
      sitemaps := None;
      selectedSitemap := None;
      this.settings := settings;
      itemUpdateStarts := 0;
    }

    /** DataOperationStateAsync: the handler of data-operation messages. */
    method DataOperationState(state: OperationState)
      modifies this
      ensures isDataLoading == LoadingAfter(old(isDataLoading), [DataOperation(state)])
      ensures isDataLoading <==> state == Started
      ensures sitemaps == old(sitemaps) && selectedSitemap == old(selectedSitemap)
      ensures settings == old(settings) && itemUpdateStarts == old(itemUpdateStarts)
    {
      match state {
        case Started => isDataLoading := true;
        case Completed => isDataLoading := false;
      }
    }

    /** The SelectedSitemap setter: a change to a sitemap records its name
        as the last sitemap and saves the settings (whether the write
        succeeds is `writeSucceeds`). */
    method SetSelectedSitemap(value: Option<Sitemap>, service: SS.SettingsService, writeSucceeds: bool)
      modifies this, service
      ensures selectedSitemap == value
      ensures isDataLoading == old(isDataLoading) && sitemaps == old(sitemaps) && itemUpdateStarts == old(itemUpdateStarts)
      ensures value != old(selectedSitemap) && value.Some? ==>
        settings == old(settings).(lastSitemap := value.value.name) && service.kept == Some(settings)
      ensures value == old(selectedSitemap) || value.None? ==> settings == old(settings) && service.kept == old(service.kept)
    {
      if selectedSitemap != value {
        selectedSitemap := value;
        if value.Some? {
          settings := settings.(lastSitemap := value.value.name);
          var _ := service.Save(settings, writeSucceeds);
        }
      }
    }

    /** LoadData. `cancelled` is whether the token is seen cancelled before
        the fetch and `fetch` what fetching the list gives. A load that
        finds another running does nothing but send Completed; otherwise
        the list is cleared, and a fetched list replaces it, starts the
        item updates and opens the last or default sitemap. */
    method LoadData(cancelled: bool, fetch: SitemapFetch, service: SS.SettingsService, writeSucceeds: bool)
      returns (sent: seq<MainMessage>)
      modifies this, service
      ensures sent == LoadMessages(old(isDataLoading), cancelled, fetch)
      ensures isDataLoading == old(isDataLoading)
      ensures old(isDataLoading) ==>
        sitemaps == old(sitemaps) && selectedSitemap == old(selectedSitemap)
        && itemUpdateStarts == old(itemUpdateStarts) && settings == old(settings)
        && service.kept == old(service.kept)
      ensures !old(isDataLoading) && (cancelled || !(fetch.Listed? && fetch.sitemaps.Some?)) ==>
        sitemaps == Cleared(old(sitemaps)) && selectedSitemap == old(selectedSitemap)
        && itemUpdateStarts == old(itemUpdateStarts) && settings == old(settings)
        && service.kept == old(service.kept)
      ensures !old(isDataLoading) && !cancelled && fetch.Listed? && fetch.sitemaps.Some? ==>
        sitemaps == fetch.sitemaps && itemUpdateStarts == old(itemUpdateStarts) + 1
        && selectedSitemap == OpenLastOrDefaultSitemap(old(settings).lastSitemap, fetch.sitemaps.value)
      ensures !old(isDataLoading) && !cancelled && fetch.Listed? && fetch.sitemaps.Some? ==>
        var chosen := OpenLastOrDefaultSitemap(old(settings).lastSitemap, fetch.sitemaps.value);
        (chosen != old(selectedSitemap) && chosen.Some? ==>
           settings == old(settings).(lastSitemap := chosen.value.name) && service.kept == Some(settings))
        && (chosen == old(selectedSitemap) || chosen.None? ==>
              settings == old(settings) && service.kept == old(service.kept))
    {
      if isDataLoading {
        return [DataOperation(Completed)];
      }
      sent := [DataOperation(Started)];
      sitemaps := Cleared(sitemaps);
      if cancelled {
        return sent + [DataOperation(Completed)];
      }
      match fetch {
        case ThrewOpenHAB(m) =>
          sent := sent + [ConnectionError(m)];
        case ThrewOther =>
        case Listed(None) =>
          sent := sent + [NotConfiguredInfo];
        case Listed(Some(list)) =>
          sitemaps := Some(list);
          itemUpdateStarts := itemUpdateStarts + 1;
          SetSelectedSitemap(OpenLastOrDefaultSitemap(settings.lastSitemap, list), service, writeSucceeds);
      }
      sent := sent + [DataOperation(Completed)];
    }
  }
}
