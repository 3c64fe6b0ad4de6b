/** src/server/idempotency.py: the reply cache and its keys. */
module Idempotency {
  import opened PyText
  import Decimal

  // ---- The cache: a TTLCache, least recently used entry first ----

  /** A stored response. */
  datatype Reply = Reply(sessionId: string, text: string, done: bool, turnN: nat)

  datatype Entry = Entry(key: string, value: Reply, expires: real)

  predicate Distinct(es: seq<Entry>) {
    forall i, j :: 0 <= i < j < |es| ==> es[i].key != es[j].key
  }

  function Index(es: seq<Entry>, key: string): (r: Option<nat>)
    ensures r.Some? ==> r.value < |es| && es[r.value].key == key
  {
    if es == [] then None
    else if es[|es| - 1].key == key then Some(|es| - 1)
    else Index(es[..|es| - 1], key)
  }

  function Unexpired(es: seq<Entry>, now: real): seq<Entry> {
    if es == [] then []
    else
      var front := Unexpired(es[..|es| - 1], now);
      if now < es[|es| - 1].expires then front + [es[|es| - 1]] else front
  }

  /** The value `get` finds at time `now`. */
  function Lookup(es: seq<Entry>, key: string, now: real): Option<Reply> {
    match Index(es, key)
    case Some(i) => if now < es[i].expires then Some(es[i].value) else None
    case None => None
  }

  function Remove(es: seq<Entry>, i: nat): seq<Entry>
    requires i < |es|
  {
    es[..i] + es[i + 1..]
  }

  /** A hit becomes the most recently used entry; a miss or a dead entry changes nothing. */
  function AfterGet(es: seq<Entry>, key: string, now: real): seq<Entry> {
    match Index(es, key)
    case Some(i) => if now < es[i].expires then Remove(es, i) + [es[i]] else es
    case None => es
  }

  /** Setting drops the dead entries, then the entry under the same key, or the least recently used
      one if the cache is full, and appends the new one. */
  function AfterSet(es: seq<Entry>, key: string, value: Reply, now: real, maxsize: nat, ttl: nat): seq<Entry>
    requires maxsize > 0
  {
    var live := Unexpired(es, now);
    var room := match Index(live, key)
                case Some(i) => Remove(live, i)
                case None => if |live| >= maxsize then live[|live| - maxsize + 1..] else live;
    room + [Entry(key, value, now + ttl as real)]
  }

  class IdempotencyCache {
    const maxsize: nat
    const ttl: nat
    var entries: seq<Entry>

    predicate Valid()
      reads this
    {
      maxsize > 0 && Distinct(entries) && |entries| <= maxsize
    }

    constructor (maxsize: nat, ttl: nat)
      requires maxsize > 0
      ensures Valid() && entries == [] && this.maxsize == maxsize && this.ttl == ttl
    {
      this.maxsize, this.ttl, entries := maxsize, ttl, [];
    }

    method Get(key: string, now: real) returns (r: Option<Reply>)
      requires Valid()
      modifies this
      ensures Valid() && entries == AfterGet(old(entries), key, now)
      ensures r == Lookup(old(entries), key, now)
    {
      hide Remove;
      GetKeepsValid(entries, key, now);
      match Index(entries, key)
      case Some(i) =>
        if now < entries[i].expires {
          r := Some(entries[i].value);
          entries := Remove(entries, i) + [entries[i]];
        } else {
          r := None;
        }
      case None => r := None;
    }

    method Set(key: string, value: Reply, now: real)
      requires Valid()
      modifies this
      ensures Valid() && entries == AfterSet(old(entries), key, value, now, maxsize, ttl)
    {
      hide Remove, Unexpired;
      SetKeepsValid(entries, key, value, now, maxsize, ttl);
      var live := Unexpired(entries, now);
      var kept := live;
      match Index(live, key) {
        case Some(i) => kept := Remove(live, i);
        case None =>
          while |kept| >= maxsize
            invariant |kept| <= |live| && kept == live[|live| - |kept|..]
            invariant |kept| + 1 >= maxsize || kept == live
          {
            kept := kept[1..];
          }
      }
      entries := kept + [Entry(key, value, now + ttl as real)];
    }
  }

  // ---- Entries stay distinct, and are found by key ----

  lemma {:induction false} IndexFinds(es: seq<Entry>, i: nat)
    requires Distinct(es) && i < |es|
    ensures Index(es, es[i].key) == Some(i)
  {
    if i < |es| - 1 {
      assert es[..|es| - 1][i] == es[i];
      IndexFinds(es[..|es| - 1], i);
    }
  }

  lemma {:induction false} IndexNone(es: seq<Entry>, key: string)
    ensures Index(es, key).None? <==> forall i :: 0 <= i < |es| ==> es[i].key != key
  {
    if es != [] {
      var front := es[..|es| - 1];
      IndexNone(front, key);
      if Index(front, key).None? && es[|es| - 1].key != key {
        forall i | 0 <= i < |es| ensures es[i].key != key { if i < |front| { assert front[i] == es[i]; } }
      }
    }
  }

  lemma {:induction false} UnexpiredIsDistinct(es: seq<Entry>, now: real)
    requires Distinct(es)
    ensures Distinct(Unexpired(es, now)) && |Unexpired(es, now)| <= |es|
    ensures forall e :: e in Unexpired(es, now) <==> e in es && now < e.expires
  {
    if es != [] {
      var front, last := es[..|es| - 1], es[|es| - 1];
      UnexpiredIsDistinct(front, now);
      assert es == front + [last];
    }
  }

  lemma RemoveIsDistinct(es: seq<Entry>, i: nat)
    requires Distinct(es) && i < |es|
    ensures Distinct(Remove(es, i)) && |Remove(es, i)| == |es| - 1
    ensures forall j :: 0 <= j < |Remove(es, i)| ==> Remove(es, i)[j].key != es[i].key
  {}

  lemma AppendIsDistinct(es: seq<Entry>, e: Entry)
    requires Distinct(es) && forall j :: 0 <= j < |es| ==> es[j].key != e.key
    ensures Distinct(es + [e])
  {}

  lemma GetKeepsValid(es: seq<Entry>, key: string, now: real)
    requires Distinct(es)
    ensures Distinct(AfterGet(es, key, now)) && |AfterGet(es, key, now)| == |es|
  {
    hide Distinct, Remove;
    match Index(es, key)
    case Some(i) =>
      RemoveIsDistinct(es, i);
      AppendIsDistinct(Remove(es, i), es[i]);
    case None =>
  }

  lemma SetKeepsValid(es: seq<Entry>, key: string, value: Reply, now: real, maxsize: nat, ttl: nat)
    requires Distinct(es) && maxsize > 0 && |es| <= maxsize
    ensures var es1 := AfterSet(es, key, value, now, maxsize, ttl); Distinct(es1) && |es1| <= maxsize
  {
    hide Distinct, Remove, Unexpired;
    UnexpiredIsDistinct(es, now);
    var live := Unexpired(es, now);
    match Index(live, key)
    case Some(i) =>
      RemoveIsDistinct(live, i);
      AppendIsDistinct(Remove(live, i), Entry(key, value, now + ttl as real));
    case None =>
      IndexNone(live, key);
      var room := if |live| >= maxsize then live[|live| - maxsize + 1..] else live;
      SuffixIsDistinct(live, |live| - |room|);
      AppendIsDistinct(room, Entry(key, value, now + ttl as real));
  }

  lemma SuffixIsDistinct(es: seq<Entry>, n: nat)
    requires Distinct(es) && n <= |es|
    ensures Distinct(es[n..])
  {}

  // ---- A stored value is found until it expires ----

  /** What was just stored is found under its key, and only its key, until its time is up. */
  lemma StoredIsFound(es: seq<Entry>, key: string, value: Reply, stored: real, maxsize: nat, ttl: nat, now: real)
    requires maxsize > 0
    ensures Lookup(AfterSet(es, key, value, stored, maxsize, ttl), key, now)
            == if now < stored + ttl as real then Some(value) else None
  {
    hide Unexpired, Remove;
  }

  lemma FoundEntry(es: seq<Entry>, e: Entry, now: real)
    requires Distinct(es) && e in es
    ensures Lookup(es, e.key, now) == if now < e.expires then Some(e.value) else None
  {
    hide Distinct;
    var i :| 0 <= i < |es| && es[i] == e;
    IndexFinds(es, i);
  }

  lemma NoEntry(es: seq<Entry>, key: string, now: real)
    requires forall e :: e in es ==> e.key != key
    ensures Lookup(es, key, now) == None
  {
    IndexNone(es, key);
    forall i | 0 <= i < |es| ensures es[i].key != key { assert es[i] in es; }
  }

  /** Lookups of a key depend only on the entries under it. */
  lemma SameEntriesSameLookup(es: seq<Entry>, fs: seq<Entry>, key: string, now: real)
    requires Distinct(es) && Distinct(fs)
    requires forall e: Entry :: e.key == key ==> (e in es <==> e in fs)
    ensures Lookup(es, key, now) == Lookup(fs, key, now)
  {
    hide Distinct, Lookup;
    if e :| e in es && e.key == key {
      FoundEntry(es, e, now);
      FoundEntry(fs, e, now);
    } else {
      NoEntry(es, key, now);
      NoEntry(fs, key, now);
    }
  }

  lemma RemoveKeepsOthers(es: seq<Entry>, i: nat, e: Entry)
    requires Distinct(es) && i < |es|
    ensures e in Remove(es, i) <==> e in es && e != es[i]
  {
    assert es == es[..i] + [es[i]] + es[i + 1..];
    RemoveIsDistinct(es, i);
  }

  /** Getting a key, found or not, changes no later lookup of any key. */
  lemma GetChangesNoLookup(es: seq<Entry>, key: string, at: real, other: string, now: real)
    requires Distinct(es)
    ensures Lookup(AfterGet(es, key, at), other, now) == Lookup(es, other, now)
  {
    hide Distinct, Lookup, Remove;
    GetKeepsValid(es, key, at);
    forall e: Entry ensures e in AfterGet(es, key, at) <==> e in es {
      if Index(es, key).Some? { RemoveKeepsOthers(es, Index(es, key).value, e); }
    }
    SameEntriesSameLookup(AfterGet(es, key, at), es, other, now);
  }

  /** Setting a key while there is room changes no later lookup of another key. */
  lemma SetKeepsOthers(es: seq<Entry>, key: string, value: Reply, stored: real, maxsize: nat, ttl: nat,
                       other: string, now: real)
    requires Distinct(es) && |es| < maxsize && other != key && stored <= now
    ensures Lookup(AfterSet(es, key, value, stored, maxsize, ttl), other, now) == Lookup(es, other, now)
  {
    hide Distinct, Lookup, Remove, Unexpired;
    SetKeepsValid(es, key, value, stored, maxsize, ttl);
    UnexpiredIsDistinct(es, stored);
    var live, es1 := Unexpired(es, stored), AfterSet(es, key, value, stored, maxsize, ttl);
    forall e: Entry | e.key == other ensures e in es1 <==> e in live {
      if Index(live, key).Some? { RemoveKeepsOthers(live, Index(live, key).value, e); }
    }
    SameEntriesSameLookup(es1, live, other, now);
    if e :| e in es && e.key == other {
      FoundEntry(es, e, now);
      if stored < e.expires {
        FoundEntry(live, e, now);
      } else {
        ExpiredIsGone(es, e, stored);
        NoEntry(live, other, now);
      }
    } else {
      NoEntry(es, other, now);
      NoEntry(live, other, now);
    }
  }

  lemma ExpiredIsGone(es: seq<Entry>, e: Entry, now: real)
    requires Distinct(es) && e in es && e.expires <= now
    ensures forall x :: x in Unexpired(es, now) ==> x.key != e.key
  {
    UnexpiredIsDistinct(es, now);
    forall x | x in Unexpired(es, now) ensures x.key != e.key {
      assert x in es && x != e;
      var i :| 0 <= i < |es| && es[i] == e;
      var j :| 0 <= j < |es| && es[j] == x;
    }
  }

  /** A use of the cache. */
  datatype Use = Got(key: string, at: real) | Stored(key: string, value: Reply, at: real)

  function AfterUse(es: seq<Entry>, use: Use, maxsize: nat, ttl: nat): seq<Entry>
    requires maxsize > 0
  {
    match use
    case Got(key, at) => AfterGet(es, key, at)
    case Stored(key, value, at) => AfterSet(es, key, value, at, maxsize, ttl)
  }

  function AfterUses(es: seq<Entry>, uses: seq<Use>, maxsize: nat, ttl: nat): seq<Entry>
    requires maxsize > 0
  {
    if uses == [] then es
    else AfterUse(AfterUses(es, uses[..|uses| - 1], maxsize, ttl), uses[|uses| - 1], maxsize, ttl)
  }

  /** The entry e is in the cache, and every entry used after it has a key in `others`. */
  ghost predicate Held(es: seq<Entry>, e: Entry, others: set<string>) {
    Distinct(es) && exists i :: HeldAt(es, e, others, i)
  }

  predicate HeldAt(es: seq<Entry>, e: Entry, others: set<string>, i: int) {
    0 <= i < |es| && es[i] == e && forall j :: i < j < |es| ==> es[j].key in others
  }

  lemma HeldIsFound(es: seq<Entry>, e: Entry, others: set<string>, now: real)
    requires Held(es, e, others) && now < e.expires
    ensures Lookup(es, e.key, now) == Some(e.value)
  {
    hide Distinct;
    var i :| HeldAt(es, e, others, i);
    IndexFinds(es, i);
  }

  lemma HeldAppend(es: seq<Entry>, e: Entry, others: set<string>, x: Entry)
    requires Held(es, e, others) && x.key in others && Distinct(es + [x])
    ensures Held(es + [x], e, others)
  {
    hide Distinct;
    var i :| HeldAt(es, e, others, i);
    assert HeldAt(es + [x], e, others, i);
  }

  lemma HeldLast(es: seq<Entry>, e: Entry, others: set<string>)
    requires Distinct(es + [e])
    ensures Held(es + [e], e, others)
  {
    hide Distinct;
    assert HeldAt(es + [e], e, others, |es|);
  }

  lemma HeldRemove(es: seq<Entry>, e: Entry, others: set<string>, k: nat)
    requires Held(es, e, others) && k < |es| && es[k].key != e.key
    ensures Held(Remove(es, k), e, others)
  {
    RemoveIsDistinct(es, k);
    hide Distinct;
    var i :| HeldAt(es, e, others, i);
    var r := Remove(es, k);
    var n := if k < i then i - 1 else i;
    forall j | n < j < |r| ensures r[j].key in others {
      if j < k { assert r[j] == es[j]; } else { assert r[j] == es[j + 1]; }
    }
    assert HeldAt(r, e, others, n);
  }

  lemma HeldDrop(es: seq<Entry>, e: Entry, others: set<string>, i: nat, n: nat)
    requires Distinct(es) && HeldAt(es, e, others, i) && n <= i
    ensures Held(es[n..], e, others)
  {
    SuffixIsDistinct(es, n);
    hide Distinct;
    assert HeldAt(es[n..], e, others, i - n);
  }

  lemma GetHolds(es: seq<Entry>, e: Entry, others: set<string>, key: string, now: real)
    requires Held(es, e, others) && (key != e.key ==> key in others)
    ensures Held(AfterGet(es, key, now), e, others)
  {
    hide Distinct, Remove;
    GetKeepsValid(es, key, now);
    match Index(es, key)
    case None =>
    case Some(k) =>
      if now < es[k].expires {
        if key == e.key {
          var i :| HeldAt(es, e, others, i);
          IndexFinds(es, i);
          HeldLast(Remove(es, k), e, others);
        } else {
          HeldRemove(es, e, others, k);
          HeldAppend(Remove(es, k), e, others, es[k]);
        }
      }
  }

  lemma {:induction false} UnexpiredHolds(es: seq<Entry>, e: Entry, others: set<string>, now: real)
    requires Held(es, e, others) && now < e.expires
    ensures Held(Unexpired(es, now), e, others)
  {
    UnexpiredIsDistinct(es, now);
    var i :| HeldAt(es, e, others, i);
    var front, last := es[..|es| - 1], es[|es| - 1];
    var live := Unexpired(front, now);
    if i == |es| - 1 {
      HeldLast(live, e, others);
    } else {
      assert HeldAt(front, e, others, i) && Distinct(front);
      UnexpiredHolds(front, e, others, now);
      if now < last.expires { HeldAppend(live, e, others, last); }
    }
  }

  lemma {:induction false} DistinctCount(es: seq<Entry>, keys: set<string>)
    requires Distinct(es) && forall j :: 0 <= j < |es| ==> es[j].key in keys
    ensures |es| <= |keys|
  {
    if es != [] {
      var front, last := es[..|es| - 1], es[|es| - 1];
      forall j | 0 <= j < |front| ensures front[j].key in keys - {last.key} { assert front[j] == es[j]; }
      DistinctCount(front, keys - {last.key});
    }
  }

  /** The entries used after a held one are no more than the other keys, less one that is not among them. */
  lemma HeldIsLate(es: seq<Entry>, e: Entry, others: set<string>, i: nat, key: string)
    requires Distinct(es) && HeldAt(es, e, others, i) && key in others && Index(es, key).None?
    ensures |es| - i <= |others|
  {
    IndexNone(es, key);
    var after := es[i + 1..];
    SuffixIsDistinct(es, i + 1);
    forall j | 0 <= j < |after| ensures after[j].key in others - {key} { assert after[j] == es[i + 1 + j]; }
    DistinctCount(after, others - {key});
  }

  lemma SetHolds(es: seq<Entry>, e: Entry, others: set<string>, key: string, value: Reply, now: real,
                 maxsize: nat, ttl: nat)
    requires Held(es, e, others) && |es| <= maxsize && now < e.expires
    requires key != e.key && key in others && |others| < maxsize
    ensures Held(AfterSet(es, key, value, now, maxsize, ttl), e, others)
  {
    hide Distinct, Remove, Unexpired, HeldAt;
    SetKeepsValid(es, key, value, now, maxsize, ttl);
    UnexpiredHolds(es, e, others, now);
    UnexpiredIsDistinct(es, now);
    var live := Unexpired(es, now);
    var x := Entry(key, value, now + ttl as real);
    match Index(live, key)
    case Some(k) =>
      HeldRemove(live, e, others, k);
      HeldAppend(Remove(live, k), e, others, x);
    case None =>
      var i :| HeldAt(live, e, others, i);
      HeldIndex(live, e, others, i);
      HeldIsLate(live, e, others, i, key);
      var n := if |live| >= maxsize then |live| - maxsize + 1 else 0;
      assert live[n..] == if |live| >= maxsize then live[|live| - maxsize + 1..] else live;
      HeldDrop(live, e, others, i, n);
      HeldAppend(live[n..], e, others, x);
  }

  lemma HeldIndex(es: seq<Entry>, e: Entry, others: set<string>, i: int)
    requires HeldAt(es, e, others, i)
    ensures 0 <= i < |es|
  {}

  function TimeOf(use: Use): real { use.at }

  /** A reply survives every series of uses before its expiry that stores nothing under its key and
      involves fewer than `maxsize` other keys. */
  lemma {:induction false} StoredSurvives(es: seq<Entry>, e: Entry, others: set<string>, uses: seq<Use>,
                                          maxsize: nat, ttl: nat)
    requires Held(es, e, others) && |es| <= maxsize && |others| < maxsize
    requires forall j :: 0 <= j < |uses| ==>
      && TimeOf(uses[j]) < e.expires && (uses[j].key != e.key ==> uses[j].key in others)
      && (uses[j].Stored? ==> uses[j].key != e.key)
    ensures Held(AfterUses(es, uses, maxsize, ttl), e, others) && |AfterUses(es, uses, maxsize, ttl)| <= maxsize
  {
    hide Distinct, HeldAt, AfterGet, AfterSet;
    if uses != [] {
      var front, use := uses[..|uses| - 1], uses[|uses| - 1];
      forall j | 0 <= j < |front| ensures front[j] == uses[j] {}
      StoredSurvives(es, e, others, front, maxsize, ttl);
      var before := AfterUses(es, front, maxsize, ttl);
      assert TimeOf(use) < e.expires;
      HeldDistinct(before, e, others);
      match use
      case Got(key, at) =>
        GetHolds(before, e, others, key, at);
        GetKeepsValid(before, key, at);
      case Stored(key, value, at) =>
        SetHolds(before, e, others, key, value, at, maxsize, ttl);
        SetKeepsValid(before, key, value, at, maxsize, ttl);
    }
  }

  lemma HeldDistinct(es: seq<Entry>, e: Entry, others: set<string>)
    requires Held(es, e, others)
    ensures Distinct(es)
  {}

  /** Storing a reply and using the cache for anything else leaves the reply to be found. */
  lemma ReplyIsReplayed(es: seq<Entry>, key: string, value: Reply, stored: real, others: set<string>, uses: seq<Use>,
                        now: real, maxsize: nat, ttl: nat)
    requires Distinct(es) && |es| <= maxsize && |others| < maxsize && now < stored + ttl as real
    requires forall j :: 0 <= j < |uses| ==> TimeOf(uses[j]) <= now
    requires forall j :: 0 <= j < |uses| ==> (uses[j].key == key ==> uses[j].Got?) && (uses[j].key != key ==>
        uses[j].key in others)
    ensures Lookup(AfterUses(AfterSet(es, key, value, stored, maxsize, ttl), uses, maxsize, ttl), key, now)
        == Some(value)
  {
    hide Distinct, AfterUses, Lookup, HeldAt;
    var e := Entry(key, value, stored + ttl as real);
    var es1 := AfterSet(es, key, value, stored, maxsize, ttl);
    StoredIsHeld(es, key, value, stored, others, maxsize, ttl);
    SetKeepsValid(es, key, value, stored, maxsize, ttl);
    hide AfterSet;
    StoredSurvives(es1, e, others, uses, maxsize, ttl);
    HeldIsFound(AfterUses(es1, uses, maxsize, ttl), e, others, now);
  }

  lemma StoredIsHeld(es: seq<Entry>, key: string, value: Reply, stored: real, others: set<string>, maxsize: nat,
                     ttl: nat)
    requires Distinct(es) && |es| <= maxsize && maxsize > 0
    ensures Held(AfterSet(es, key, value, stored, maxsize, ttl), Entry(key, value, stored + ttl as real), others)
  {
    hide Distinct, Remove, Unexpired;
    SetKeepsValid(es, key, value, stored, maxsize, ttl);
    var es1 := AfterSet(es, key, value, stored, maxsize, ttl);
    HeldLast(es1[..|es1| - 1], es1[|es1| - 1], others);
    assert es1[..|es1| - 1] + [es1[|es1| - 1]] == es1;
  }

  // ---- Keys ----

  predicate KeyChar(c: char) {
    'a' <= c <= 'z' || 'A' <= c <= 'Z' || '0' <= c <= '9' || c == '_' || c == '-'
  }

  predicate KeyChars(s: string) {
    8 <= |s| <= 128 && forall i :: 0 <= i < |s| ==> KeyChar(s[i])
  }

  /** `_IDEMPOTENCY_KEY_RE.match`; its `$` also lets one final newline through. */
  predicate MatchesKey(s: string) {
    KeyChars(s) || (s != "" && s[|s| - 1] == '\n' && KeyChars(s[..|s| - 1]))
  }

  /** `make_key_from_header` */
  function KeyFromHeader(header: Option<string>): Option<string> {
    if header.Some? && MatchesKey(header.value) then header else None
  }

  const KEY_CHARS := LOWERS + UPPERS + "0123456789" + "_-"

  lemma DigitAt(i: nat)
    requires i < 10
    ensures "0123456789"[i] as int == 48 + i
  {
    assert i == 0 || i == 1 || i == 2 || i == 3 || i == 4 || i == 5 || i == 6 || i == 7 || i == 8 || i == 9;
  }

  lemma KeyCharExactly(c: char)
    ensures KeyChar(c) <==> c in KEY_CHARS
  {
    var n := c as int;
    if c in LOWERS {
      var i :| 0 <= i < 26 && LOWERS[i] == c;
      LowerAt(i);
    } else if 'a' <= c <= 'z' {
      LowerAt(n - 97);
    }
    if c in UPPERS {
      var i :| 0 <= i < 26 && UPPERS[i] == c;
      LowerAt(i);
    } else if 'A' <= c <= 'Z' {
      LowerAt(n - 65);
    }
    if c in "0123456789" {
      var i :| 0 <= i < 10 && "0123456789"[i] == c;
      DigitAt(i);
    } else if '0' <= c <= '9' {
      DigitAt(n - 48);
    }
  }

  /** The header without the newline it may end with. */
  function Line(header: string): string {
    if header != "" && header[|header| - 1] == '\n' then header[..|header| - 1] else header
  }

  /** 8 to 128 characters, all of them letters, digits, underscores or hyphens. */
  predicate IsKey(line: string) {
    8 <= |line| <= 128 && forall i :: 0 <= i < |line| ==> line[i] in KEY_CHARS
  }

  /** Which headers are keys, and that they are taken as they stand. */
  lemma HeaderKeyExactly(header: string)
    ensures KeyFromHeader(Some(header)) == if IsKey(Line(header)) then Some(header) else None
  {
    hide KeyChar;
    forall c ensures KeyChar(c) <==> c in KEY_CHARS { KeyCharExactly(c); }
    NewlineIsNoKeyChar();
  }

  lemma NewlineIsNoKeyChar()
    ensures !KeyChar('\n')
  {}

  /** `$` matches before a final newline: a key followed by one is taken as it stands, newline included. */
  lemma NewlineKeyAccepted(key: string)
    requires KeyChars(key)
    ensures KeyFromHeader(Some(key + "\n")) == Some(key + "\n")
  {
    assert (key + "\n")[..|key|] == key;
  }

  /** The text that `make_key_from_tuple` hashes. */
  function KeyText(sessionId: string, message: string, turnN: int): string {
    (sessionId + ['\0'] + message) + ['\0'] + Decimal.Print(turnN)
  }

  function KeyFromTuple(hash: string -> string, sessionId: string, message: string, turnN: int): string {
    hash(KeyText(sessionId, message, turnN))
  }

  ghost predicate Injective(hash: string -> string) {
    forall x, y :: hash(x) == hash(y) ==> x == y
  }

  lemma NoneAfter(a: string, b: string, sep: char)
    requires sep !in b
    ensures var s := a + [sep] + b; s[|a|] == sep && forall i :: |a| < i < |s| ==> s[i] != sep
  {
    var s := a + [sep] + b;
    forall i | |a| < i < |s| ensures s[i] != sep { assert s[i] == b[i - |a| - 1]; }
  }

  lemma NoneBefore(a: string, b: string, sep: char)
    requires sep !in a
    ensures var s := a + [sep] + b; s[|a|] == sep && forall i :: 0 <= i < |a| ==> s[i] != sep
  {
    var s := a + [sep] + b;
    forall i | 0 <= i < |a| ensures s[i] != sep { assert s[i] == a[i]; }
  }

  lemma SamePlace(a: string, b: string, c: string, d: string, sep: char)
    requires |a| == |c| && a + [sep] + b == c + [sep] + d
    ensures a == c && b == d
  {
    var s, u := a + [sep] + b, c + [sep] + d;
    assert s[..|a|] == a && u[..|c|] == c && s[|a| + 1..] == b && u[|c| + 1..] == d;
  }

  lemma LastSeparator(a: string, b: string, c: string, d: string, sep: char)
    requires sep !in b && sep !in d && a + [sep] + b == c + [sep] + d
    ensures a == c && b == d
  {
    NoneAfter(a, b, sep);
    NoneAfter(c, d, sep);
    SamePlace(a, b, c, d, sep);
  }

  lemma FirstSeparator(a: string, b: string, c: string, d: string, sep: char)
    requires sep !in a && sep !in c && a + [sep] + b == c + [sep] + d
    ensures a == c && b == d
  {
    NoneBefore(a, b, sep);
    NoneBefore(c, d, sep);
    SamePlace(a, b, c, d, sep);
  }

  lemma PrintHasNoNul(n: int)
    ensures '\0' !in Decimal.Print(n)
  {
    Decimal.PrintCharacters(n);
  }

  /** Exactly which requests share a key text. */
  lemma SameKeyTextExactly(s1: string, m1: string, n1: int, s2: string, m2: string, n2: int)
    ensures KeyText(s1, m1, n1) == KeyText(s2, m2, n2)
            <==> n1 == n2 && s1 + ['\0'] + m1 == s2 + ['\0'] + m2
  {
    hide Decimal.Print;
    PrintHasNoNul(n1);
    PrintHasNoNul(n2);
    if KeyText(s1, m1, n1) == KeyText(s2, m2, n2) {
      LastSeparator(s1 + ['\0'] + m1, Decimal.Print(n1), s2 + ['\0'] + m2, Decimal.Print(n2), '\0');
      Decimal.PrintInjective(n1, n2);
    }
  }

  /** The key text tells sessions, messages and turns apart for all session ids without NUL,
      whatever the messages contain. */
  lemma KeyTextInjective(s1: string, m1: string, n1: int, s2: string, m2: string, n2: int)
    requires '\0' !in s1 && '\0' !in s2 && KeyText(s1, m1, n1) == KeyText(s2, m2, n2)
    ensures s1 == s2 && m1 == m2 && n1 == n2
  {
    SameKeyTextExactly(s1, m1, n1, s2, m2, n2);
    FirstSeparator(s1, m1, s2, m2, '\0');
  }

  /** A session id with a NUL can share its key text with another session. */
  lemma NulInSessionCollides()
    ensures KeyText(['a', '\0', 'b'], "c", 0) == KeyText("a", ['b', '\0', 'c'], 0)
  {
    assert ['a', '\0', 'b'] + ['\0'] + "c" == "a" + ['\0'] + ['b', '\0', 'c'];
  }

  lemma KeysDiffer(hash: string -> string, s1: string, m1: string, n1: int, s2: string, m2: string, n2: int)
    requires Injective(hash) && '\0' !in s1 && '\0' !in s2
    requires KeyFromTuple(hash, s1, m1, n1) == KeyFromTuple(hash, s2, m2, n2)
    ensures s1 == s2 && m1 == m2 && n1 == n2
  {
    KeyTextInjective(s1, m1, n1, s2, m2, n2);
  }
}
