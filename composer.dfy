/** The text the bot sends: product links with their query strings, the
    vendor-name rewrite behind the vendor id table, and the alert message
    with its sections. */
module Composer {
  import opened Listings
  import opened OrderedMaps

  const StockUri := "https://rpilocator.com/"

  /** The tracking parameters every link carries. */
  const TrackingQuery := "utm_source=telegram" + "&" + "utm_medium=rapsberry_alert"

  /** What link building depends on besides the listing: whether to link to
      the vendor's product page, and the vendor id of each vendor name. */
  datatype LinkSettings = LinkSettings(useDirectProductLink: bool, vendors: map<string, string>)

  /** `parts.join(sep)`. */
  function Join(sep: string, parts: seq<string>): string {
    if parts == [] then ""
    else if |parts| == 1 then parts[0]
    else parts[0] + sep + Join(sep, parts[1..])
  }

  /** Appending a part appends the separator and the part. */
  lemma {:induction false} JoinSnoc(sep: string, parts: seq<string>, last: string)
    requires parts != []
    ensures Join(sep, parts + [last]) == Join(sep, parts) + sep + last
    decreases |parts|
  {
    if |parts| > 1 {
      assert (parts + [last])[1..] == parts[1..] + [last];
      JoinSnoc(sep, parts[1..], last);
    } else {
      assert (parts + [last])[1..] == [last];
    }
  }

  /** The query pairs of a link, in order: the vendor filter when linking to
      the stock page of a vendor with a known id, then the tracking pair. */
  function UrlQueries(r: Raspberry, settings: LinkSettings): seq<(string, string)> {
    (if !settings.useDirectProductLink && r.vendor in settings.vendors
     then [("vendor", settings.vendors[r.vendor])] else [])
    + [("utm_source", "telegram"), ("utm_medium", "rapsberry_alert")]
  }

  /** Each pair written `key=value`. */
  function QueryParts(queries: seq<(string, string)>): seq<string> {
    seq(|queries|, i requires 0 <= i < |queries| => queries[i].0 + "=" + queries[i].1)
  }

  function QueryString(queries: seq<(string, string)>): string {
    Join("&", QueryParts(queries))
  }

  /** The target of a listing's link. */
  function ItemLink(r: Raspberry, settings: LinkSettings): string {
    (if settings.useDirectProductLink then r.link else StockUri) + "?" + QueryString(UrlQueries(r, settings))
  }

  /** The Markdown link of a listing: `[description | vendor | price](target)`. */
  function RaspberryLink(r: Raspberry, settings: LinkSettings): string {
    "[" + r.description + " | " + r.vendor + " | " + r.price + "](" + ItemLink(r, settings) + ")"
  }

  /** A link goes to the product page when direct links are on, otherwise to
      the stock page filtered by the vendor's id when it is known; either
      way it ends with the tracking parameters. */
  lemma LinkTarget(r: Raspberry, settings: LinkSettings)
    ensures ItemLink(r, settings) ==
      (if settings.useDirectProductLink then r.link else StockUri) + "?" +
      (if !settings.useDirectProductLink && r.vendor in settings.vendors
       then "vendor=" + settings.vendors[r.vendor] + "&" + TrackingQuery
       else TrackingQuery)
  {
    var q := if !settings.useDirectProductLink && r.vendor in settings.vendors
      then "vendor=" + settings.vendors[r.vendor] + "&" + TrackingQuery
      else TrackingQuery;
    QueryOfLink(r, settings);
    assert QueryString(UrlQueries(r, settings)) == q;
  }

  lemma QueryOfLink(r: Raspberry, settings: LinkSettings)
    ensures QueryString(UrlQueries(r, settings)) ==
      if !settings.useDirectProductLink && r.vendor in settings.vendors
      then "vendor=" + settings.vendors[r.vendor] + "&" + TrackingQuery
      else TrackingQuery
  {
    var tracking := [("utm_source", "telegram"), ("utm_medium", "rapsberry_alert")];
    TrackingQueryString();
    if !settings.useDirectProductLink && r.vendor in settings.vendors {
      var id := settings.vendors[r.vendor];
      assert UrlQueries(r, settings) == [("vendor", id), ("utm_source", "telegram"), ("utm_medium", "rapsberry_alert")];
      VendorQueryString(id);
    } else {
      assert UrlQueries(r, settings) == tracking;
    }
  }

  lemma TrackingQueryString()
    ensures QueryString([("utm_source", "telegram"), ("utm_medium", "rapsberry_alert")]) == TrackingQuery
  {
    var source, medium := "utm_source=telegram", "utm_medium=rapsberry_alert";
    var parts := QueryParts([("utm_source", "telegram"), ("utm_medium", "rapsberry_alert")]);
    assert |parts| == 2 && parts[0] == source && parts[1] == medium;
    assert parts == [source, medium];
    JoinPair("&", source, medium);
  }

  lemma VendorQueryString(id: string)
    ensures QueryString([("vendor", id), ("utm_source", "telegram"), ("utm_medium", "rapsberry_alert")]) ==
      "vendor=" + id + "&" + TrackingQuery
  {
    var source, medium := "utm_source=telegram", "utm_medium=rapsberry_alert";
    var parts := QueryParts([("vendor", id), ("utm_source", "telegram"), ("utm_medium", "rapsberry_alert")]);
    assert |parts| == 3 && parts[0] == "vendor=" + id && parts[1] == source && parts[2] == medium;
    assert parts[1..] == [source, medium];
    JoinPair("&", source, medium);
    assert Join("&", parts) == parts[0] + "&" + Join("&", parts[1..]);
  }

  lemma JoinPair(sep: string, a: string, b: string)
    ensures Join(sep, [a, b]) == a + sep + b
  {
    assert [a, b][1..] == [b];
  }

  /** `s.split(sep)` for a one-character separator. */
  function Split(s: string, sep: char): (parts: seq<string>)
    ensures |parts| >= 1
  {
    if s == [] then [""]
    else
      var rest := Split(s[1..], sep);
      if s[0] == sep then [""] + rest else [[s[0]] + rest[0]] + rest[1..]
  }

  /** Splitting and joining with the same separator gives the text back. */
  lemma {:induction false} JoinSplit(s: string, sep: char)
    ensures Join([sep], Split(s, sep)) == s
  {
    if s != [] {
      var rest := Split(s[1..], sep);
      JoinSplit(s[1..], sep);
      if s[0] == sep {
        assert ([""] + rest)[1..] == rest;
      } else if |rest| > 1 {
        var parts := [[s[0]] + rest[0]] + rest[1..];
        assert parts[1..] == rest[1..];
        assert Join([sep], rest) == rest[0] + [sep] + Join([sep], rest[1..]);
      }
    }
  }

  /** Joining words free of the separator and splitting again gives the
      words back. */
  lemma {:induction false} SplitJoin(words: seq<string>, sep: char)
    requires words != []
    requires forall w :: w in words ==> sep !in w
    ensures Split(Join([sep], words), sep) == words
    decreases |words|, if words == [] then 0 else |words[0]|
  {
    var w := words[0];
    if |words| == 1 {
      SplitWord(w, sep);
    } else {
      var rest := words[1..];
      SplitJoin(rest, sep);
      assert Join([sep], words) == w + [sep] + Join([sep], rest);
      SplitPrefix(w, sep, Join([sep], rest));
    }
  }

  /** A word without the separator splits to itself. */
  lemma {:induction false} SplitWord(w: string, sep: char)
    requires sep !in w
    ensures Split(w, sep) == [w]
  {
    if w != [] {
      SplitWord(w[1..], sep);
      assert [w[0]] + w[1..] == w;
    }
  }

  /** Splitting `w + sep + t`, for `w` free of the separator, gives `w`
      followed by the parts of `t`. */
  lemma {:induction false} SplitPrefix(w: string, sep: char, t: string)
    requires sep !in w
    ensures Split(w + [sep] + t, sep) == [w] + Split(t, sep)
  {
    if w == [] {
      assert w + [sep] + t == [sep] + t;
      assert ([sep] + t)[1..] == t;
    } else {
      assert (w + [sep] + t)[1..] == w[1..] + [sep] + t;
      SplitPrefix(w[1..], sep, t);
      assert [w[0]] + w[1..] == w;
    }
  }

  /** The characters `String.prototype.trim` removes. */
  predicate IsWhitespace(c: char) {
    c == '\t' || c == '\n' || c == '\U{000B}' || c == '\U{000C}' || c == '\r' || c == ' ' ||
    c == '\U{00A0}' || c == '\U{1680}' || ('\U{2000}' <= c <= '\U{200A}') ||
    c == '\U{2028}' || c == '\U{2029}' || c == '\U{202F}' || c == '\U{205F}' ||
    c == '\U{3000}' || c == '\U{FEFF}'
  }

  function TrimStart(s: string): string {
    if s != [] && IsWhitespace(s[0]) then TrimStart(s[1..]) else s
  }

  function TrimEnd(s: string): string {
    if s != [] && IsWhitespace(s[|s| - 1]) then TrimEnd(s[..|s| - 1]) else s
  }

  /** `s.trim()`. */
  function Trim(s: string): string {
    TrimEnd(TrimStart(s))
  }

  /** Text that starts and ends with a non-blank character is its own trim. */
  lemma TrimmedIsTrim(s: string)
    requires s != [] && !IsWhitespace(s[0]) && !IsWhitespace(s[|s| - 1])
    ensures Trim(s) == s
  {
  }

  /** The vendor name the table uses for the text of a vendor menu entry:
      the text starts with the country, which moves to the end
      (`UK The Pi Hut` becomes `The Pi Hut UK`). */
  function VendorName(text: string): string {
    var words := Split(Trim(text), ' ');
    Trim(Join(" ", words[1..]) + " " + words[0])
  }

  /** A word of a menu entry: not empty, no space inside, no blank at either end. */
  predicate IsWord(w: string) {
    w != [] && ' ' !in w && !IsWhitespace(w[0]) && !IsWhitespace(w[|w| - 1])
  }

  /** For a menu entry made of words separated by single spaces, the rewrite
      moves the first word behind the others. */
  lemma VendorNameMovesCountry(words: seq<string>)
    requires words != []
    requires forall w :: w in words ==> IsWord(w)
    ensures VendorName(Join(" ", words)) == Join(" ", words[1..] + [words[0]])
  {
    var text := Join(" ", words);
    JoinedWordsAreTrimmed(words);
    TrimmedIsTrim(text);
    SplitJoin(words, ' ');
    var moved := words[1..] + [words[0]];
    if |words| == 1 {
      assert moved == [words[0]];
      assert Join(" ", words[1..]) + " " + words[0] == " " + words[0];
      assert TrimStart(" " + words[0]) == words[0];
      TrimmedIsTrim(words[0]);
    } else {
      JoinSnoc(" ", words[1..], words[0]);
      assert forall w :: w in moved ==> IsWord(w);
      JoinedWordsAreTrimmed(moved);
      TrimmedIsTrim(Join(" ", moved));
    }
  }

  /** Words joined by spaces start and end with a non-blank character. */
  lemma {:induction false} JoinedWordsAreTrimmed(words: seq<string>)
    requires words != []
    requires forall w :: w in words ==> IsWord(w)
    ensures var s := Join(" ", words); s != [] && !IsWhitespace(s[0]) && !IsWhitespace(s[|s| - 1])
    decreases |words|
  {
    assert words[0] in words;
    if |words| > 1 {
      assert forall w :: w in words[1..] ==> w in words;
      JoinedWordsAreTrimmed(words[1..]);
      var rest := Join(" ", words[1..]);
      var s := words[0] + " " + rest;
      assert Join(" ", words) == s;
      assert s[0] == words[0][0];
      assert s[|s| - 1] == rest[|rest| - 1];
    }
  }

  /** One entry of the vendor menu: its text and its `data-vendor` id. */
  datatype VendorAnchor = VendorAnchor(text: string, id: string)

  /** The vendor table after recording `anchors` in order over `vendors`. */
  function WithAnchors(vendors: map<string, string>, anchors: seq<VendorAnchor>): map<string, string>
    decreases |anchors|
  {
    if anchors == [] then vendors
    else
      var last := anchors[|anchors| - 1];
      WithAnchors(vendors, anchors[..|anchors| - 1])[VendorName(last.text) := last.id]
  }

  /** The vendor id table, filled from the vendor menu on every poll. */
  class VendorsCache {
    var vendors: map<string, string>

    constructor ()
      ensures vendors == map[]
    {
      vendors := map[];
    }

    /** Binds each menu entry's rewritten name to its id, in menu order, then
        drops the `All` entry. */
    method Update(anchors: seq<VendorAnchor>)
      modifies this
      ensures vendors == WithAnchors(old(vendors), anchors) - {"All"}
    {
      var i := 0;
      while i < |anchors|
        invariant 0 <= i <= |anchors|
        invariant vendors == WithAnchors(old(vendors), anchors[..i])
      {
        assert anchors[..i + 1][..i] == anchors[..i];
        vendors := vendors[VendorName(anchors[i].text) := anchors[i].id];
        i := i + 1;
      }
      assert anchors[..i] == anchors;
      vendors := vendors - {"All"};
    }
  }

  /** The names in the table after recording a menu are the old names plus
      the rewritten name of every menu entry. */
  lemma {:induction false} VendorNamesAfterUpdate(vendors: map<string, string>, anchors: seq<VendorAnchor>)
    ensures WithAnchors(vendors, anchors).Keys == vendors.Keys + set a | a in anchors :: VendorName(a.text)
    decreases |anchors|
  {
    if anchors == [] {
      assert (set a | a in anchors :: VendorName(a.text)) == {};
    } else {
      var init, last := anchors[..|anchors| - 1], anchors[|anchors| - 1];
      VendorNamesAfterUpdate(vendors, init);
      assert anchors == init + [last];
      assert (set a | a in anchors :: VendorName(a.text))
          == (set a | a in init :: VendorName(a.text)) + {VendorName(last.text)};
    }
  }

  /** No later menu entry has the name of `anchors[i]`. */
  ghost predicate IsLastOfName(anchors: seq<VendorAnchor>, i: int)
    requires 0 <= i < |anchors|
  {
    forall j :: i < j < |anchors| ==> VendorName(anchors[j].text) != VendorName(anchors[i].text)
  }

  /** After an update every menu name except `All` maps to the id of its
      last entry, names not on the menu keep their old id, and `All` is gone. */
  lemma {:induction false} VendorsAfterUpdate(vendors: map<string, string>, anchors: seq<VendorAnchor>)
    ensures forall i :: 0 <= i < |anchors| && IsLastOfName(anchors, i) ==>
              VendorName(anchors[i].text) in WithAnchors(vendors, anchors) &&
              WithAnchors(vendors, anchors)[VendorName(anchors[i].text)] == anchors[i].id
    ensures forall name :: name in vendors && (forall a :: a in anchors ==> VendorName(a.text) != name) ==>
              name in WithAnchors(vendors, anchors) && WithAnchors(vendors, anchors)[name] == vendors[name]
    decreases |anchors|
  {
    if anchors != [] {
      var init, last := anchors[..|anchors| - 1], anchors[|anchors| - 1];
      VendorsAfterUpdate(vendors, init);
      forall i | 0 <= i < |anchors| && IsLastOfName(anchors, i)
        ensures VendorName(anchors[i].text) in WithAnchors(vendors, anchors)
        ensures WithAnchors(vendors, anchors)[VendorName(anchors[i].text)] == anchors[i].id
      {
        if i < |init| {
          assert anchors[i] == init[i];
          assert IsLastOfName(init, i) by {
            forall j | i < j < |init| ensures VendorName(init[j].text) != VendorName(init[i].text) {
              assert init[j] == anchors[j];
            }
          }
        }
      }
      forall name | name in vendors && (forall a :: a in anchors ==> VendorName(a.text) != name)
        ensures name in WithAnchors(vendors, anchors) && WithAnchors(vendors, anchors)[name] == vendors[name]
      {
        assert forall a :: a in init ==> a in anchors;
        assert last in anchors;
      }
    }
  }

  const Header := "\U{1F6CD}\U{FE0F} Raspberry stock changes!"
  const AvailableHeading := "\n\nNew Raspberry in stock! \U{1F525}\U{1F525}\n"
  const UnavailableHeading := "\n\nNow out of stock! \U{1F614}\n"
  const StockHeading := "\n\nCurrently in stock:\n"
  const Footer := "\n\nStock data from [rpilocator.com](" + StockUri + "?" + TrackingQuery + ")"
  const AvailableMark := "\U{2705} "
  const UnavailableMark := "\U{274C} "

  /** One line per listing: `mark` followed by the listing's link. */
  function LinkLines(mark: string, rs: seq<Raspberry>, settings: LinkSettings): seq<string> {
    seq(|rs|, i requires 0 <= i < |rs| => mark + RaspberryLink(rs[i], settings))
  }

  /** The listings of the table that are available, in table order. */
  function InStock(list: seq<Raspberry>): (r: seq<Raspberry>)
    ensures forall x :: x in r <==> x in list && x.available
  {
    if list == [] then []
    else (if list[0].available then [list[0]] else []) + InStock(list[1..])
  }

  /** The in-stock filter works row by row, so the listings in stock keep
      their table order and repeated rows stay repeated. */
  lemma {:induction false} InStockDistributes(a: seq<Raspberry>, b: seq<Raspberry>)
    ensures InStock(a + b) == InStock(a) + InStock(b)
  {
    if a == [] {
      assert a + b == b;
    } else {
      assert (a + b)[1..] == a[1..] + b;
      InStockDistributes(a[1..], b);
    }
  }

  /** On a single row the in-stock filter keeps the row iff it is available. */
  lemma InStockSingle(x: Raspberry)
    ensures InStock([x]) == if x.available then [x] else []
  {
    assert [x][1..] == [];
  }

  /** A titled section of lines, present only when there is a line to show. */
  function Section(heading: string, mark: string, m: OrderedMap<Raspberry>, settings: LinkSettings): string
    requires m.Valid()
  {
    if m.Size() > 0 then heading + Join("\n", LinkLines(mark, m.Values(), settings)) else ""
  }

  /** What stands between the header and the footer: the newly available
      and newly unavailable sections when they have listings, then the
      listings in stock. */
  function MessageBody(list: seq<Raspberry>, nowAvailable: OrderedMap<Raspberry>,
                       nowUnavailable: OrderedMap<Raspberry>, settings: LinkSettings): string
    requires nowAvailable.Valid() && nowUnavailable.Valid()
  {
    Section(AvailableHeading, AvailableMark, nowAvailable, settings)
    + Section(UnavailableHeading, UnavailableMark, nowUnavailable, settings)
    + StockHeading + Join("\n", LinkLines("", InStock(list), settings))
  }

  /** The alert text. */
  function TelegramMessage(list: seq<Raspberry>, nowAvailable: OrderedMap<Raspberry>,
                           nowUnavailable: OrderedMap<Raspberry>, settings: LinkSettings): string
    requires nowAvailable.Valid() && nowUnavailable.Valid()
  {
    Header + MessageBody(list, nowAvailable, nowUnavailable, settings) + Footer
  }

  /** The keys of the listings of a map, in iteration order. */
  function AnnouncedKeys(m: OrderedMap<Raspberry>): seq<string>
    requires m.Valid()
  {
    seq(|m.keys|, i requires 0 <= i < |m.keys| => Key(m.entries[m.keys[i]]))
  }

  /** Every listing of the map is stored under its own key. */
  ghost predicate WellKeyed(m: OrderedMap<Raspberry>) {
    forall k :: k in m.entries ==> Key(m.entries[k]) == k
  }

  /** Builds the alert text and collects, in order, the keys of the newly
      available listings it announces. */
  method ComposeMessage(list: seq<Raspberry>, nowAvailable: OrderedMap<Raspberry>,
                        nowUnavailable: OrderedMap<Raspberry>, settings: LinkSettings)
    returns (message: string, announced: seq<string>)
    requires nowAvailable.Valid() && nowUnavailable.Valid()
    ensures message == TelegramMessage(list, nowAvailable, nowUnavailable, settings)
    ensures announced == AnnouncedKeys(nowAvailable)
  {
    var availableSection := "";
    announced := [];
    if nowAvailable.Size() > 0 {
      var lines;
      lines, announced := AvailableLines(nowAvailable.Values(), settings);
      availableSection := AvailableHeading + Join("\n", lines);
    }
    var unavailableSection := Section(UnavailableHeading, UnavailableMark, nowUnavailable, settings);
    var stock := Join("\n", LinkLines("", InStock(list), settings));
    message := Header + (availableSection + unavailableSection + StockHeading + stock) + Footer;
  }

  /** The lines of the newly available section and the keys of their
      listings, in order. */
  method AvailableLines(values: seq<Raspberry>, settings: LinkSettings) returns (lines: seq<string>, keys: seq<string>)
    ensures lines == LinkLines(AvailableMark, values, settings)
    ensures |keys| == |values| && forall i :: 0 <= i < |values| ==> keys[i] == Key(values[i])
  {
    lines, keys := [], [];
    var i := 0;
    while i < |values|
      invariant 0 <= i <= |values|
      invariant lines == LinkLines(AvailableMark, values[..i], settings)
      invariant |keys| == i && forall j :: 0 <= j < i ==> keys[j] == Key(values[j])
    {
      var r := values[i];
      keys := keys + [Key(r)];
      lines := lines + [AvailableMark + RaspberryLink(r, settings)];
      i := i + 1;
    }
    assert values[..i] == values;
  }

  /** The text always opens with the header and closes with the footer, and
      a section about changes appears exactly when it has a listing. */
  lemma MessageFraming(list: seq<Raspberry>, nowAvailable: OrderedMap<Raspberry>,
                       nowUnavailable: OrderedMap<Raspberry>, settings: LinkSettings)
    requires nowAvailable.Valid() && nowUnavailable.Valid()
    ensures var text := TelegramMessage(list, nowAvailable, nowUnavailable, settings);
      && |Header| + |Footer| <= |text|
      && text[..|Header|] == Header
      && text[|text| - |Footer|..] == Footer
    ensures Section(AvailableHeading, AvailableMark, nowAvailable, settings) == "" <==> nowAvailable.entries == map[]
    ensures Section(UnavailableHeading, UnavailableMark, nowUnavailable, settings) == "" <==> nowUnavailable.entries == map[]
  {
  }

  /** When every listing is stored under its own key, the announced keys are
      the map's keys in order. */
  lemma AnnouncedKeysAreMapKeys(m: OrderedMap<Raspberry>)
    requires m.Valid() && WellKeyed(m)
    ensures AnnouncedKeys(m) == m.keys
  {
  }
}
