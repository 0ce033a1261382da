/**
 * The current version of an Azure secret, chosen from a paged list of its versions. No page is asked for twice, so
 * the transport is a function from links to answers; `trusted` is the check of a link (`checked_next`).
 */
module AzurePages {
  import opened Basics

  datatype Failure = InvalidConfig | Unauthorized | Source | VersionConflict

  datatype Item = Item(id: string, created: nat, enabled: bool, exp: Option<nat>, nbf: Option<nat>)

  datatype Page = Page(items: seq<Item>, next: Option<string>)

  type Transport = string -> Result<Page, Failure>

  const MAX_PAGES := 100

  predicate Usable(item: Item, now: nat) {
    item.enabled && (item.exp.Some? ==> now < item.exp.value) && (item.nbf.Some? ==> now >= item.nbf.value)
  }

  predicate HexDigit(c: char) { AsciiDigit(c) || 'a' <= c <= 'f' || 'A' <= c <= 'F' }

  predicate ValidVersion(version: string) { |version| == 32 && forall c | c in version :: HexDigit(c) }

  function VersionFromId(base: string, id: string): Result<string, Failure> {
    if base + "/" <= id && ValidVersion(id[|base| + 1..]) then Ok(id[|base| + 1..]) else Err(VersionConflict)
  }

  // ---- the specification on one flat list ----

  /** The first of the most recently created items. */
  predicate Newest(items: seq<Item>, i: nat) {
    && i < |items|
    && (forall j | 0 <= j < |items| :: items[j].created <= items[i].created)
    && (forall j | 0 <= j < i :: items[j].created < items[i].created)
  }

  function NewestIndex(items: seq<Item>): (i: nat)
    requires items != []
    ensures Newest(items, i)
  {
    if |items| == 1 then 0
    else
      var last := |items| - 1;
      var i := NewestIndex(items[..last]);
      if items[last].created > items[i].created then last else i
  }

  /** Another version was created in the same second as the newest one. */
  predicate Tied(items: seq<Item>, i: nat)
    requires i < |items|
  {
    exists j | 0 <= j < |items| :: items[j].created == items[i].created && items[j].id != items[i].id
  }

  predicate AllOurs(base: string, items: seq<Item>) {
    forall j | 0 <= j < |items| :: VersionFromId(base, items[j].id).Ok?
  }

  /** The version to use: that of the newest item, if it is the only newest version and usable. */
  function Select(base: string, items: seq<Item>, clock: Result<nat, Failure>): Result<string, Failure> {
    if !AllOurs(base, items) then Err(VersionConflict)
    else if items == [] then Err(Source)
    else
      var i := NewestIndex(items);
      if Tied(items, i) then Err(VersionConflict)
      else if clock.Err? then Err(clock.error)
      else if !Usable(items[i], clock.value) then Err(Source)
      else VersionFromId(base, items[i].id)
  }

  predicate Hex32(version: string) {
    |version| == 32 && forall c | c in version :: '0' <= c <= '9' || 'a' <= c <= 'f' || 'A' <= c <= 'F'
  }

  /** Every id is the secret's own address, a slash and 32 hex digits. */
  ghost predicate Addressed(base: string, items: seq<Item>) {
    forall j | 0 <= j < |items| :: exists version: string :: Hex32(version) && items[j].id == base + "/" + version
  }

  lemma AddressedAreOurs(base: string, items: seq<Item>)
    requires Addressed(base, items)
    ensures AllOurs(base, items)
  {
    forall j | 0 <= j < |items| ensures VersionFromId(base, items[j].id).Ok? {
      OursExactly(base, items[j].id);
    }
  }

  lemma OursExactly(base: string, id: string)
    ensures VersionFromId(base, id).Ok? <==> exists version: string :: Hex32(version) && id == base + "/" + version
  {
    if version: string :| Hex32(version) && id == base + "/" + version {
      assert id[|base| + 1..] == version;
    }
    if VersionFromId(base, id).Ok? {
      assert id == base + "/" + id[|base| + 1..] && Hex32(id[|base| + 1..]);
    }
  }

  /**
   * A version that is answered is the 32 hex digits behind the secret's own address in the id of a listed item that is
   * newer than every item with another id, enabled, not expired and already valid.
   */
  ghost predicate Current(base: string, items: seq<Item>, now: nat, version: string) {
    && Hex32(version)
    && exists i ::
         && 0 <= i < |items| && items[i].id == base + "/" + version
         && (forall j | 0 <= j < |items| :: items[j].created < items[i].created || items[j].id == items[i].id)
         && items[i].enabled && (items[i].exp == None || now < items[i].exp.value)
         && (items[i].nbf == None || items[i].nbf.value <= now)
  }

  lemma IdParts(base: string, id: string)
    requires VersionFromId(base, id).Ok?
    ensures id == base + "/" + VersionFromId(base, id).value
  {
  }

  lemma SelectedIsCurrent(base: string, items: seq<Item>, clock: Result<nat, Failure>)
    requires Select(base, items, clock).Ok?
    ensures clock.Ok? && Current(base, items, clock.value, Select(base, items, clock).value)
  {
    var i := NewestIndex(items);
    IdParts(base, items[i].id);
    forall j | 0 <= j < |items| ensures items[j].created < items[i].created || items[j].id == items[i].id {
      assert items[j].created <= items[i].created;
    }
  }

  /** Such an item, with no other id as new, is chosen, if what an item says depends on its id alone. */
  lemma CurrentIsSelected(base: string, items: seq<Item>, now: nat, version: string)
    requires Current(base, items, now, version) && ById(items) && Addressed(base, items)
    ensures Select(base, items, Ok(now)) == Ok(version)
  {
    var i :| && 0 <= i < |items| && items[i].id == base + "/" + version
             && (forall j | 0 <= j < |items| :: items[j].created < items[i].created || items[j].id == items[i].id)
             && items[i].enabled && (items[i].exp == None || now < items[i].exp.value)
             && (items[i].nbf == None || items[i].nbf.value <= now);
    AddressedAreOurs(base, items);
    var n := NewestIndex(items);
    assert items[i] in items && items[n] in items && items[n] == items[i];
    IdParts(base, items[n].id);
    assert (base + "/" + version)[|base| + 1..] == version;
  }

  lemma NewestUnique(items: seq<Item>, i: nat, j: nat)
    requires Newest(items, i) && Newest(items, j)
    ensures i == j
  {
    assert items[i].created == items[j].created;
  }

  predicate SameItems(a: seq<Item>, b: seq<Item>) {
    (forall x | x in a :: x in b) && (forall x | x in b :: x in a)
  }

  /** What an item says depends on its id alone. */
  predicate ById(items: seq<Item>) { forall x, y | x in items && y in items && x.id == y.id :: x == y }

  /** Then the order of the items, and how often each is listed, make no difference. */
  lemma OrderIndependent(base: string, a: seq<Item>, b: seq<Item>, clock: Result<nat, Failure>)
    requires SameItems(a, b) && ById(a)
    ensures Select(base, a, clock) == Select(base, b, clock)
  {
    assert AllOurs(base, a) <==> AllOurs(base, b) by {
      if AllOurs(base, a) {
        SameOurs(base, a, b);
      }
      if AllOurs(base, b) {
        SameOurs(base, b, a);
      }
    }
    assert (a != [] ==> a[0] in a) && (b != [] ==> b[0] in b);
    if a != [] {
      var i, j := NewestIndex(a), NewestIndex(b);
      SameCreated(a, i, b, j);
      SameCreated(b, j, a, i);
      if Tied(a, i) {
        TiedElsewhere(a, i, b, j);
      }
      if Tied(b, j) {
        TiedElsewhere(b, j, a, i);
      }
      if !Tied(b, j) {
        assert a[i] in b && b[j] in a;
        var k :| 0 <= k < |b| && b[k] == a[i];
        assert b[k].id == b[j].id;
      }
    }
  }

  lemma SameOurs(base: string, a: seq<Item>, b: seq<Item>)
    requires SameItems(a, b) && AllOurs(base, a)
    ensures AllOurs(base, b)
  {
    forall j | 0 <= j < |b| ensures VersionFromId(base, b[j].id).Ok? {
      assert b[j] in b;
      var k :| 0 <= k < |a| && a[k] == b[j];
    }
  }

  lemma SameCreated(a: seq<Item>, i: nat, b: seq<Item>, j: nat)
    requires SameItems(a, b) && Newest(a, i) && Newest(b, j)
    ensures a[i].created <= b[j].created
  {
    assert a[i] in a;
    var k :| 0 <= k < |b| && b[k] == a[i];
  }

  lemma TiedElsewhere(a: seq<Item>, i: nat, b: seq<Item>, j: nat)
    requires SameItems(a, b) && i < |a| && j < |b| && a[i].created == b[j].created && Tied(a, i)
    ensures Tied(b, j)
  {
    var k :| 0 <= k < |a| && a[k].created == a[i].created && a[k].id != a[i].id;
    assert a[k] in a && a[i] in a;
    var m :| 0 <= m < |b| && b[m] == a[k];
    var n :| 0 <= n < |b| && b[n] == a[i];
    assert b[m].id != b[j].id || b[n].id != b[j].id;
  }

  /** Listed twice with different attributes, one version is taken or refused as the first of the two says. */
  lemma OrderMattersOtherwise(base: string, item: Item, now: nat)
    requires VersionFromId(base, item.id).Ok? && Usable(item, now)
    ensures var off := item.(enabled := false);
            Select(base, [item, off], Ok(now)).Ok? && Select(base, [off, item], Ok(now)) == Err(Source)
  {
    var off := item.(enabled := false);
    NewestUnique([item, off], NewestIndex([item, off]), 0);
    NewestUnique([off, item], NewestIndex([off, item]), 0);
  }

  // ---- the loop's own state ----

  /** `latest` and `ambiguous` after some items. */
  datatype Best = Best(latest: Option<Item>, ambiguous: bool)

  ghost predicate IsBest(best: Best, items: seq<Item>) {
    if items == [] then best == Best(None, false)
    else best == Best(Some(items[NewestIndex(items)]), Tied(items, NewestIndex(items)))
  }

  function Take(best: Best, item: Item): Best {
    if best.latest.None? || item.created > best.latest.value.created then Best(Some(item), false)
    else if item.created == best.latest.value.created && item.id != best.latest.value.id then best.(ambiguous := true)
    else best
  }

  lemma TakeKeepsBest(best: Best, items: seq<Item>, item: Item)
    requires IsBest(best, items)
    ensures IsBest(Take(best, item), items + [item])
  {
    var more := items + [item];
    var last := |items|;
    assert more[..last] == items && more[last] == item;
    if items != [] {
      var i := NewestIndex(items);
      assert NewestIndex(more) == if item.created > items[i].created then last else i;
      if item.created <= items[i].created {
        TiedOneMore(items, item, i);
      } else {
        assert forall j | 0 <= j < last :: more[j] == items[j];
        assert !Tied(more, last);
      }
    }
  }

  lemma TiedOneMore(items: seq<Item>, item: Item, i: nat)
    requires i < |items|
    ensures Tied(items + [item], i) <==> Tied(items, i) || (item.created == items[i].created && item.id != items[i].id)
  {
    var more := items + [item];
    assert more[|items|] == item && forall j | 0 <= j < |items| :: more[j] == items[j];
    if Tied(items, i) {
      var j :| 0 <= j < |items| && items[j].created == items[i].created && items[j].id != items[i].id;
      assert more[j].created == more[i].created && more[j].id != more[i].id;
    }
  }

  // ---- the pages ----

  /** Each link but the last was asked for and led to the next. */
  ghost predicate Linked(transport: Transport, trusted: string -> bool, first: string, links: seq<string>) {
    && links != [] && links[0] == first
    && forall i | 0 <= i < |links| - 1 :: LeadsTo(transport, trusted, links[i], links[i + 1])
  }

  ghost predicate LeadsTo(transport: Transport, trusted: string -> bool, link: string, next: string) {
    transport(link).Ok? && transport(link).value.next == Some(next) && trusted(next)
  }

  predicate Distinct(links: seq<string>) { forall i, j | 0 <= i < j < |links| :: links[i] != links[j] }

  /** A whole list of versions, in at most 100 different pages that all arrive. */
  ghost predicate Listing(transport: Transport, trusted: string -> bool, first: string, links: seq<string>) {
    && Linked(transport, trusted, first, links) && Distinct(links) && |links| <= MAX_PAGES
    && transport(links[|links| - 1]).Ok? && transport(links[|links| - 1]).value.next.None?
  }

  function ItemsAt(transport: Transport, link: string): seq<Item> {
    match transport(link) case Ok(page) => page.items case Err(_) => []
  }

  function AllItems(transport: Transport, links: seq<string>): seq<Item> {
    if links == [] then [] else AllItems(transport, links[..|links| - 1]) + ItemsAt(transport, links[|links| - 1])
  }

  /** The loop only ever walks along the beginning of the listing. */
  lemma {:induction false} WalkIsPrefix(transport: Transport, trusted: string -> bool, first: string,
                                        links: seq<string>, listing: seq<string>)
    requires Linked(transport, trusted, first, links) && Listing(transport, trusted, first, listing)
    ensures links <= listing
    decreases |links|
  {
    if |links| > 1 {
      var n := |links| - 1;
      assert forall i | 0 <= i < n - 1 :: LeadsTo(transport, trusted, links[..n][i], links[..n][i + 1]) by {
        forall i | 0 <= i < n - 1 ensures LeadsTo(transport, trusted, links[..n][i], links[..n][i + 1]) {
          assert LeadsTo(transport, trusted, links[i], links[i + 1]);
        }
      }
      WalkIsPrefix(transport, trusted, first, links[..n], listing);
      assert LeadsTo(transport, trusted, links[n - 1], links[n]) && listing[n - 1] == links[n - 1];
      assert LeadsTo(transport, trusted, listing[n - 1], listing[n]);
    }
  }

  lemma {:induction false} ItemsOfPrefix(transport: Transport, links: seq<string>, listing: seq<string>)
    requires links <= listing
    ensures AllItems(transport, links) <= AllItems(transport, listing)
    decreases |listing|
  {
    if links != listing {
      ItemsOfPrefix(transport, links, listing[..|listing| - 1]);
    }
  }

  lemma OneMoreItem(base: string, before: seq<Item>, items: seq<Item>, i: nat)
    requires i < |items|
    ensures before + items[..i] + [items[i]] == before + items[..i + 1]
    ensures AllOurs(base, before + items[..i]) && VersionFromId(base, items[i].id).Ok? ==> AllOurs(base, before + items[..i + 1])
    ensures VersionFromId(base, items[i].id).Err? ==> !AllOurs(base, before + items)
  {
    assert (before + items)[|before| + i] == items[i];
    var less, more := before + items[..i], before + items[..i + 1];
    assert forall j | 0 <= j < |more| :: more[j] == if j < |less| then less[j] else items[i];
  }

  /** One page's loop: an item that is not a version of the secret is an error, the others are taken in. */
  method TakePage(base: string, best: Best, items: seq<Item>, ghost before: seq<Item>) returns (r: Result<Best, Failure>)
    requires IsBest(best, before) && AllOurs(base, before)
    ensures r == Err(VersionConflict) || r.Ok?
    ensures r.Ok? <==> AllOurs(base, before + items)
    ensures r.Ok? ==> IsBest(r.value, before + items)
  {
    var latest, ambiguous := best.latest, best.ambiguous;
    assert before + items[..0] == before;
    for i := 0 to |items|
      invariant IsBest(Best(latest, ambiguous), before + items[..i]) && AllOurs(base, before + items[..i])
    {
      var item := items[i];
      OneMoreItem(base, before, items, i);
      if VersionFromId(base, item.id).Err? {
        return Err(VersionConflict);
      }
      TakeKeepsBest(Best(latest, ambiguous), before + items[..i], item);
      if latest.Some? && item.created < latest.value.created {
      } else if latest.Some? && item.created == latest.value.created {
        if item.id != latest.value.id {
          ambiguous := true;
        }
      } else {
        latest := Some(item);
        ambiguous := false;
      }
    }
    assert items[..|items|] == items;
    r := Ok(Best(latest, ambiguous));
  }

  /** Walking along a listing, no link repeats, every page arrives, and every further link is followed. */
  lemma OnListing(transport: Transport, trusted: string -> bool, first: string, walked: seq<string>, listing: seq<string>)
    requires Linked(transport, trusted, first, walked) && Listing(transport, trusted, first, listing)
    ensures walked <= listing && Distinct(walked) && |walked| <= MAX_PAGES
    ensures var page := transport(walked[|walked| - 1]);
            page.Ok? && (page.value.next.Some? ==> trusted(page.value.next.value)) && (page.value.next.None? ==> listing == walked)
  {
    WalkIsPrefix(transport, trusted, first, walked, listing);
    var last := |walked| - 1;
    assert listing[last] == walked[last];
    if last < |listing| - 1 {
      assert LeadsTo(transport, trusted, listing[last], listing[last + 1]);
    }
    assert forall i, j | 0 <= i < j < |walked| :: walked[i] == listing[i] && walked[j] == listing[j] && listing[i] != listing[j];
  }

  lemma BadItemOnListing(base: string, transport: Transport, walked: seq<string>, listing: seq<string>,
                         clock: Result<nat, Failure>)
    requires walked <= listing && !AllOurs(base, AllItems(transport, walked))
    ensures Select(base, AllItems(transport, listing), clock) == Err(VersionConflict)
  {
    ItemsOfPrefix(transport, walked, listing);
    var few, all := AllItems(transport, walked), AllItems(transport, listing);
    var j :| 0 <= j < |few| && VersionFromId(base, few[j].id).Err?;
    assert all[j] == few[j];
  }

  /** `get_version` after its last page. */
  method Choose(base: string, best: Best, clock: Result<nat, Failure>, ghost items: seq<Item>) returns (r: Result<string, Failure>)
    requires IsBest(best, items) && AllOurs(base, items)
    ensures r == Select(base, items, clock)
  {
    if best.latest.None? {
      return Err(Source);
    }
    if best.ambiguous {
      return Err(VersionConflict);
    }
    if clock.Err? {
      return Err(clock.error);
    }
    if !Usable(best.latest.value, clock.value) {
      return Err(Source);
    }
    r := VersionFromId(base, best.latest.value.id);
  }

  /** The answer `r` is the specified one for whatever listing there is; there is at most one. */
  ghost predicate Answers(r: Result<string, Failure>, base: string, first: string, transport: Transport,
                          trusted: string -> bool, clock: Result<nat, Failure>) {
    forall links | Listing(transport, trusted, first, links) :: r == Select(base, AllItems(transport, links), clock)
  }

  /**
   * `get_version`: the pages are one flat list. If the whole listing arrives, the answer is that of the specification
   * on its items, wherever the pages are cut; and a version is only answered when the whole listing has arrived.
   */
  method GetVersion(base: string, first: string, transport: Transport, trusted: string -> bool,
                    clock: Result<nat, Failure>)
    returns (r: Result<string, Failure>, ghost walked: seq<string>)
    ensures Answers(r, base, first, transport, trusted, clock)
    ensures r.Ok? ==> Listing(transport, trusted, first, walked)
    ensures r.Ok? ==> clock.Ok? && Current(base, AllItems(transport, walked), clock.value, r.value)
  {
    var url := first;
    var best := Best(None, false);
    var seen: set<string> := {};
    walked := [first];
    for page := 0 to MAX_PAGES
      invariant |walked| == page + 1 && walked[page] == url
      invariant Linked(transport, trusted, first, walked)
      invariant Distinct(walked[..page]) && (forall link :: link in seen <==> link in walked[..page])
      invariant AllOurs(base, AllItems(transport, walked[..page])) && IsBest(best, AllItems(transport, walked[..page]))
    {
      forall links | Listing(transport, trusted, first, links)
        ensures walked <= links && Distinct(walked)
        ensures transport(url).Ok? && (transport(url).value.next.Some? ==> trusted(transport(url).value.next.value))
        ensures transport(url).value.next.None? ==> links == walked
      {
        OnListing(transport, trusted, first, walked, links);
      }
      if url in seen {
        ghost var k :| 0 <= k < page && walked[..page][k] == url;
        assert walked[k] == walked[page];
        return Err(Source), walked;
      }
      assert Distinct(walked) by {
        assert forall i | 0 <= i < page :: walked[i] == walked[..page][i];
      }
      seen := seen + {url};
      var answer := transport(url);
      if answer.Err? {
        return Err(answer.error), walked;
      }
      ghost var items := AllItems(transport, walked);
      var taken := TakePage(base, best, answer.value.items, AllItems(transport, walked[..page]));
      if taken.Err? {
        forall links | Listing(transport, trusted, first, links)
          ensures Select(base, AllItems(transport, links), clock) == Err(VersionConflict)
        {
          BadItemOnListing(base, transport, walked, links, clock);
        }
        return Err(taken.error), walked;
      }
      best := taken.value;
      if answer.value.next.None? {
        r := Choose(base, best, clock, items);
        if r.Ok? {
          SelectedIsCurrent(base, items, clock);
        }
        return r, walked;
      }
      url := answer.value.next.value;
      if !trusted(url) {
        return Err(Source), walked;
      }
      ghost var longer := walked + [url];
      assert longer[..page + 1] == walked;
      assert LeadsTo(transport, trusted, longer[page], longer[page + 1]);
      assert Linked(transport, trusted, first, longer) by {
        forall i | 0 <= i < |longer| - 1 ensures LeadsTo(transport, trusted, longer[i], longer[i + 1]) {
          if i < page {
            assert LeadsTo(transport, trusted, walked[i], walked[i + 1]);
          }
        }
      }
      walked := longer;
    }
    forall links | Listing(transport, trusted, first, links) ensures false {
      OnListing(transport, trusted, first, walked, links);
    }
    r := Err(Source);
  }
}
