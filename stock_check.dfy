/** One polling cycle of the bot: read the stock page, refresh the vendor
    table and the listing cache, send an alert for listings that came back in
    stock and edit the alerts of listings that sold out. */
module StockCheck {
  import opened Wrappers
  import opened Listings
  import opened OrderedMaps
  import opened Differ
  import opened Composer
  import opened Ledger

  /** What one fetch of the stock page yields once parsed: the vendor menu
      entries and the rows of the stock table. */
  datatype Page = Page(anchors: seq<VendorAnchor>, rows: seq<Raspberry>)

  /** The bot's state between cycles. */
  datatype BotState = BotState(cache: map<string, Raspberry>, vendors: map<string, string>, ledger: LedgerState)

  /** Why a cycle ended early; each is reported to the admin chat. */
  datatype CycleFailure = FetchFailed | SendRejected | UpdateFailed(reason: Failure)

  /** What a cycle sent out: the alert text if one was composed, the edits
      issued, and the failure that ended it, if any. */
  datatype CycleReport = CycleReport(alert: Option<string>, edits: seq<Edit>, failure: Option<CycleFailure>)

  /** The result of one cycle from state `s`. */
  function Cycle(s: BotState, models: seq<string>, useDirectProductLink: bool, page: Option<Page>,
                 sent: SendResult, rejected: set<int>, now: int): (BotState, CycleReport)
    requires ContentsValid(s.ledger)
  {
    if page.None? then (s, CycleReport(None, [], Some(FetchFailed)))
    else
      var vendors := WithAnchors(s.vendors, page.value.anchors) - {"All"};
      var settings := LinkSettings(useDirectProductLink, vendors);
      var list := FilterBySku(models, page.value.rows);
      var d := Diff(s.cache, list);
      ChangesAreWellFormed(s.cache, list);
      var alert := if d.nowAvailable.Size() > 0
                   then Some(TelegramMessage(list, d.nowAvailable, d.nowUnavailable, settings)) else None;
      if alert.Some? && sent.SendFailed? then
        (BotState(d.cache, vendors, s.ledger), CycleReport(alert, [], Some(SendRejected)))
      else
        var ledger := if alert.Some?
                      then RecordAll(s.ledger, AnnouncedKeys(d.nowAvailable), d.nowAvailable.Values(),
                                     sent.messageId, now + RetentionMs)
                      else s.ledger;
        RecordKeepsValid(s.ledger, AnnouncedKeys(d.nowAvailable), d.nowAvailable.Values(), sent, now + RetentionMs);
        if d.nowUnavailable.Size() > 0 then
          var m := MarkAll(Marking(ledger, [], None), list, d.nowUnavailable.Values(), settings, rejected);
          (BotState(d.cache, vendors, m.ledger),
           CycleReport(alert, m.edits, if m.failure.Some? then Some(UpdateFailed(m.failure.value)) else None))
        else
          (BotState(d.cache, vendors, ledger), CycleReport(alert, [], None))
  }

  lemma ChangesAreWellFormed(cache: map<string, Raspberry>, list: seq<Raspberry>)
    ensures Diff(cache, list).nowAvailable.Valid() && Diff(cache, list).nowUnavailable.Valid()
  {
    ChangesComeFromTable(|cache| == 0, cache, list);
  }

  lemma RecordKeepsValid(l: LedgerState, keys: seq<string>, values: seq<Raspberry>, sent: SendResult, due: int)
    requires ContentsValid(l)
    ensures sent.Sent? ==> ContentsValid(RecordAll(l, keys, values, sent.messageId, due))
    decreases |keys|
  {
    if sent.Sent? && keys != [] {
      RecordKeepsValid(l, keys[..|keys| - 1], values, sent, due);
      RecordKeyKeepsValid(RecordAll(l, keys[..|keys| - 1], values, sent.messageId, due), keys[|keys| - 1], values,
                          sent.messageId, due);
    }
  }

  /** The bot: its configuration and its three caches. */
  class StockChecker {
    const models: seq<string>
    const useDirectProductLink: bool
    const raspberries: RaspberryCache
    const vendors: VendorsCache
    const ledger: AlertLedger

    function State(): BotState
      reads raspberries, vendors, ledger
    {
      BotState(raspberries.cache, vendors.vendors, ledger.State())
    }

    ghost predicate Valid()
      reads raspberries, vendors, ledger
    {
      ledger.Valid()
    }

    constructor (models: seq<string>, useDirectProductLink: bool)
      ensures Valid()
      ensures this.models == models && this.useDirectProductLink == useDirectProductLink
      ensures State() == BotState(map[], map[], LedgerState(map[], map[], []))
      ensures fresh(raspberries) && fresh(vendors) && fresh(ledger)
    {
      this.models := models;
      this.useDirectProductLink := useDirectProductLink;
      raspberries := new RaspberryCache();
      vendors := new VendorsCache();
      ledger := new AlertLedger();
    }

    /** One cycle. `page` is the parsed stock page or a failed fetch; `sent`
        is what Telegram answers if an alert is sent; `rejected` holds the
        messages whose edit Telegram refuses; `now` is the clock when the
        alert's timers are armed. */
    method CheckStock(page: Option<Page>, sent: SendResult, rejected: set<int>, now: int) returns (report: CycleReport)
      requires Valid()
      modifies raspberries, vendors, ledger
      ensures Valid()
      ensures (State(), report) ==
        Cycle(old(State()), models, useDirectProductLink, page, sent, rejected, now)
    {
      if page.None? {
        return CycleReport(None, [], Some(FetchFailed));
      }
      var p := page.value;
      vendors.Update(p.anchors);
      ghost var cache := raspberries.cache;
      var changes := raspberries.Update(models, p.rows);
      ChangesAreWellFormed(cache, changes.raspberryList);
      var settings := LinkSettings(useDirectProductLink, vendors.vendors);
      var alert: Option<string> := None;
      if changes.nowAvailable.Size() > 0 {
        var message := ledger.SendAlert(changes, settings, sent, now);
        alert := Some(message);
        if sent.SendFailed? {
          return CycleReport(alert, [], Some(SendRejected));
        }
      }
      var edits: seq<Edit> := [];
      var failure: Option<Failure> := None;
      if changes.nowUnavailable.Size() > 0 {
        edits, failure := ledger.UpdateAlert(changes, settings, rejected);
      }
      report := CycleReport(alert, edits, if failure.Some? then Some(UpdateFailed(failure.value)) else None);
    }
  }

  /** A failed fetch changes nothing and is reported. */
  lemma FetchFailureChangesNothing(s: BotState, models: seq<string>, useDirectProductLink: bool,
                                   sent: SendResult, rejected: set<int>, now: int)
    requires ContentsValid(s.ledger)
    ensures var (s', report) := Cycle(s, models, useDirectProductLink, None, sent, rejected, now);
      s' == s && report == CycleReport(None, [], Some(FetchFailed))
  {
  }

  /** The first cycle after start only fills the cache: it sends no alert,
      issues no edit and leaves the ledger as it was. */
  lemma FirstCycleIsSilent(s: BotState, models: seq<string>, useDirectProductLink: bool, page: Page,
                           sent: SendResult, rejected: set<int>, now: int)
    requires ContentsValid(s.ledger) && |s.cache| == 0
    ensures var (s', report) := Cycle(s, models, useDirectProductLink, Some(page), sent, rejected, now);
      && report == CycleReport(None, [], None)
      && s'.ledger == s.ledger
      && forall r :: r in FilterBySku(models, page.rows) ==> Key(r) in s'.cache
  {
    var list := FilterBySku(models, page.rows);
    FirstCycleIsBaseline(s.cache, list);
    var d := Diff(s.cache, list);
    assert d.nowAvailable.Size() == 0 && d.nowUnavailable.Size() == 0;
  }

  /** A cycle keeps the ledger consistent when Telegram gives each alert a
      new message id, and then no cycle fails on a missing message content. */
  lemma {:induction false} CycleKeepsConsistent(s: BotState, models: seq<string>, useDirectProductLink: bool,
                                                page: Option<Page>, sent: SendResult, rejected: set<int>, now: int)
    requires Consistent(s.ledger)
    requires sent.Sent? ==> Fresh(s.ledger, sent.messageId)
    ensures var (s', report) := Cycle(s, models, useDirectProductLink, page, sent, rejected, now);
      && Consistent(s'.ledger)
      && (report.failure.Some? && report.failure.value.UpdateFailed? ==> report.failure.value.reason.EditRejected?)
  {
    if page.Some? {
      var list := FilterBySku(models, page.value.rows);
      var d := Diff(s.cache, list);
      ChangesAreWellFormed(s.cache, list);
      var ledger := s.ledger;
      if d.nowAvailable.Size() > 0 && sent.Sent? {
        ledger := RecordAll(s.ledger, AnnouncedKeys(d.nowAvailable), d.nowAvailable.Values(),
                            sent.messageId, now + RetentionMs);
        RecordKeepsConsistent(s.ledger, AnnouncedKeys(d.nowAvailable), d.nowAvailable.Values(),
                              sent.messageId, now + RetentionMs);
      }
      var settings := LinkSettings(useDirectProductLink, WithAnchors(s.vendors, page.value.anchors) - {"All"});
      MarkKeepsConsistent(Marking(ledger, [], None), list, d.nowUnavailable.Values(), settings, rejected);
      ConsistentMarkFindsContent(Marking(ledger, [], None), list, d.nowUnavailable.Values(), settings, rejected);
    }
  }
}
