/**
 Section ids of a resource body.

 A body is the list of events a reader makes of it. Every heading is given an id that is
 valid and its own: the ids authors already use stay where they occur first, and every other
 heading draws a new one.
 */
module Sections {
  import opened Wrappers

  /** Attribute values are bytes, one per character. */
  datatype Attribute = Attribute(key: string, value: string)

  /** `attributes` are those the reader could make sense of. */
  datatype Event = Start(name: string, attributes: seq<Attribute>) | Other(content: string)

  const SECTION_ID := "data-yuance-section-id"
  const PREFIX := "yuance-section-"

  predicate Heading(e: Event) {
    e.Start? && e.name in ["h1", "h2", "h3", "h4", "h5", "h6"]
  }

  predicate IdCharacter(c: char) {
    '0' <= c <= '9' || 'A' <= c <= 'Z' || 'a' <= c <= 'z' || c == '-' || c == '_'
  }

  predicate ValidId(value: string) {
    && PREFIX <= value
    && 0 < |value| - |PREFIX| <= 80
    && forall k :: |PREFIX| <= k < |value| ==> IdCharacter(value[k])
  }

  // One heading.

  function Existing(attributes: seq<Attribute>): Option<string> {
    if attributes == [] then None
    else if attributes[0].key == SECTION_ID then Some(attributes[0].value)
    else Existing(attributes[1..])
  }

  function WithoutId(attributes: seq<Attribute>): (r: seq<Attribute>)
    ensures forall a :: a in r <==> a in attributes && a.key != SECTION_ID
  {
    if attributes == [] then []
    else if attributes[0].key == SECTION_ID then WithoutId(attributes[1..])
    else [attributes[0]] + WithoutId(attributes[1..])
  }

  function WithId(e: Event, id: string): Event
    requires Heading(e)
  {
    Start(e.name, WithoutId(e.attributes) + [Attribute(SECTION_ID, id)])
  }

  /** The valid ids that headings of the body already carry. */
  function Reserved(body: seq<Event>): set<string> {
    set k, a | 0 <= k < |body| && Heading(body[k]) && a in body[k].attributes && a.key == SECTION_ID && ValidId(a.value) :: a.value
  }

  // New ids.

  /** Some draw from `next` on is not taken: exactly when the search for a free one ends. */
  ghost predicate HasFree(draws: nat -> string, next: nat, taken: set<string>) {
    exists k: nat :: k >= next && draws(k) !in taken
  }

  /** A supply of valid ids, repetitions allowed, that never runs dry while at most `bound` ids are taken. */
  ghost predicate Supply(draws: nat -> string, bound: nat) {
    && (forall i: nat :: ValidId(draws(i)))
    && (forall next: nat, taken: set<string> :: |taken| <= bound ==> HasFree(draws, next, taken))
  }

  /** What normalising a body can take up: an id for each event, and the ids its headings carry already. */
  ghost predicate Enough(body: seq<Event>, draws: nat -> string) {
    Supply(draws, |body| + |Reserved(body)|)
  }

  ghost predicate IsFirstFree(draws: nat -> string, next: nat, taken: set<string>, r: nat) {
    r >= next && draws(r) !in taken && forall k: nat :: next <= k < r ==> draws(k) in taken
  }

  lemma {:induction false} FirstFreeExists(draws: nat -> string, next: nat, taken: set<string>, k: nat)
    requires k >= next && draws(k) !in taken
    ensures exists r: nat :: IsFirstFree(draws, next, taken, r)
    decreases k
  {
    if j: nat :| next <= j < k && draws(j) !in taken {
      FirstFreeExists(draws, next, taken, j);
    } else {
      assert IsFirstFree(draws, next, taken, k);
    }
  }

  /** The first draw that is not taken. */
  ghost function FirstFree(draws: nat -> string, next: nat, taken: set<string>): (r: nat)
    requires HasFree(draws, next, taken)
    ensures IsFirstFree(draws, next, taken, r)
  {
    var k: nat :| k >= next && draws(k) !in taken;
    FirstFreeExists(draws, next, taken, k);
    var r: nat :| IsFirstFree(draws, next, taken, r);
    r
  }

  // The pass over the body.

  datatype Pass = Pass(out: seq<Event>, used: set<string>, next: nat)

  predicate Keeps(e: Event, used: set<string>)
    requires Heading(e)
  {
    var id := Existing(e.attributes);
    id.Some? && ValidId(id.value) && id.value !in used
  }

  ghost function Visit(p: Pass, e: Event, reserved: set<string>, draws: nat -> string): (q: Pass)
    requires Supply(draws, |p.used + reserved|)
    ensures |q.used| <= |p.used| + 1
  {
    if !Heading(e) then p.(out := p.out + [e])
    else if Keeps(e, p.used) then
      var id := Existing(e.attributes).value;
      Pass(p.out + [WithId(e, id)], p.used + {id}, p.next)
    else
      var k := FirstFree(draws, p.next, p.used + reserved);
      Pass(p.out + [WithId(e, draws(k))], p.used + {draws(k)}, k + 1)
  }

  ghost function After(body: seq<Event>, n: nat, reserved: set<string>, draws: nat -> string): (p: Pass)
    requires Supply(draws, |body| + |reserved|) && n <= |body|
    ensures |p.used| <= n
  {
    if n == 0 then Pass([], {}, 0)
    else
      var p := After(body, n - 1, reserved, draws);
      Visit(p, body[n - 1], reserved, draws)
  }

  /** `fails` tells that the reader stops at an error after the events of `body`; then nothing is changed. */
  ghost function Normalize(body: seq<Event>, fails: bool, draws: nat -> string): seq<Event>
    requires Enough(body, draws)
  {
    if fails then body else After(body, |body|, Reserved(body), draws).out
  }

  lemma ReservedGrows(body: seq<Event>, k: nat)
    requires k < |body|
    ensures Reserved(body[..k + 1]) == Reserved(body[..k]) + Reserved([body[k]])
  {
    forall x | x in Reserved(body[..k + 1])
      ensures x in Reserved(body[..k]) + Reserved([body[k]])
    {
      var j, a :| 0 <= j < k + 1 && Heading(body[j]) && a in body[j].attributes && a.key == SECTION_ID && ValidId(a.value) && a.value == x;
      if j < k { assert body[..k][j] == body[j]; } else { assert [body[k]][0] == body[j]; }
    }
    forall x | x in Reserved(body[..k])
      ensures x in Reserved(body[..k + 1])
    {
      var j, a :| 0 <= j < k && Heading(body[..k][j]) && a in body[..k][j].attributes && a.key == SECTION_ID && ValidId(a.value) && a.value == x;
      assert body[..k + 1][j] == body[j];
    }
    assert Heading(body[k]) ==> body[..k + 1][k] == body[k];
    forall x | x in Reserved([body[k]])
      ensures x in Reserved(body[..k + 1])
    {
      var a :| a in body[k].attributes && a.key == SECTION_ID && ValidId(a.value) && a.value == x;
      assert body[..k + 1][k] == body[k];
    }
  }

  lemma OneHeading(e: Event)
    requires Heading(e)
    ensures Reserved([e]) == set a | a in e.attributes && a.key == SECTION_ID && ValidId(a.value) :: a.value
  {
    forall x | x in set a | a in e.attributes && a.key == SECTION_ID && ValidId(a.value) :: a.value
      ensures x in Reserved([e])
    {
      var a :| a in e.attributes && a.key == SECTION_ID && ValidId(a.value) && a.value == x;
      assert Heading([e][0]) && a in [e][0].attributes;
    }
  }

  method ReserveIds(body: seq<Event>) returns (reserved: set<string>)
    ensures reserved == Reserved(body)
  {
    reserved := {};
    for k := 0 to |body|
      invariant reserved == Reserved(body[..k])
    {
      ReservedGrows(body, k);
      if Heading(body[k]) {
        var attributes := body[k].attributes;
        var added: set<string> := {};
        for j := 0 to |attributes|
          invariant added == set a | a in attributes[..j] && a.key == SECTION_ID && ValidId(a.value) :: a.value
        {
          assert attributes[..j + 1] == attributes[..j] + [attributes[j]];
          if attributes[j].key == SECTION_ID && ValidId(attributes[j].value) { added := added + {attributes[j].value}; }
        }
        assert attributes[..|attributes|] == attributes;
        OneHeading(body[k]);
        reserved := reserved + added;
      } else {
        assert Reserved([body[k]]) == {};
      }
    }
    assert body[..|body|] == body;
  }

  lemma RoomLeft(body: seq<Event>, k: nat, reserved: set<string>, draws: nat -> string)
    requires Supply(draws, |body| + |reserved|) && k <= |body|
    ensures var p := After(body, k, reserved, draws); HasFree(draws, p.next, p.used + reserved)
  {
    hide After, HasFree;
    var p := After(body, k, reserved, draws);
    assert |p.used + reserved| <= |p.used| + |reserved|;
  }

  /** The two passes: the first collects the ids in use, the second rewrites the headings. */
  method NormalizeResourceSections(body: seq<Event>, fails: bool, draws: nat -> string) returns (r: seq<Event>)
    requires Enough(body, draws)
    ensures r == Normalize(body, fails, draws)
  {
    hide Reserved, Existing, ValidId, WithoutId, WithId, Supply;
    var reserved := ReserveIds(body);
    var used: set<string>, next: nat := {}, 0;
    r := [];
    for k := 0 to |body|
      invariant Pass(r, used, next) == After(body, k, reserved, draws)
    {
      var e := body[k];
      if Heading(e) {
        var existing := Existing(e.attributes);
        var id: string;
        if existing.Some? && ValidId(existing.value) && existing.value !in used {
          id := existing.value;
        } else {
          RoomLeft(body, k, reserved, draws);
          id, next := DrawFree(draws, next, used, reserved);
        }
        used := used + {id};
        e := WithId(e, id);
      }
      r := r + [e];
    }
    if fails { r := body; }
  }

  /** Draws until an id is neither used nor reserved. */
  method DrawFree(draws: nat -> string, from: nat, used: set<string>, reserved: set<string>) returns (id: string, next: nat)
    requires HasFree(draws, from, used + reserved)
    ensures next == FirstFree(draws, from, used + reserved) + 1 && id == draws(next - 1)
  {
    ghost var first := FirstFree(draws, from, used + reserved);
    id := draws(from);
    next := from + 1;
    while id in used || id in reserved
      invariant from < next <= first + 1 && id == draws(next - 1)
      decreases first - next
    {
      id := draws(next);
      next := next + 1;
    }
  }

  // What normalisation guarantees.

  /** The id a heading carries, as a reader of the result finds it. */
  function IdOf(e: Event): (r: string)
    requires Heading(e)
  {
    var id := Existing(e.attributes);
    if id.Some? then id.value else ""
  }

  lemma {:induction false} AppendedIdIsFound(attributes: seq<Attribute>, id: string)
    ensures Existing(WithoutId(attributes) + [Attribute(SECTION_ID, id)]) == Some(id)
  {
    var kept := WithoutId(attributes);
    if attributes == [] {
    } else {
      AppendedIdIsFound(attributes[1..], id);
      if attributes[0].key != SECTION_ID {
        assert (kept + [Attribute(SECTION_ID, id)])[1..] == WithoutId(attributes[1..]) + [Attribute(SECTION_ID, id)];
      }
    }
  }

  lemma IdIsFound(e: Event, id: string)
    requires Heading(e)
    ensures Heading(WithId(e, id)) && IdOf(WithId(e, id)) == id
  {
    AppendedIdIsFound(e.attributes, id);
  }

  lemma {:induction false} ExistingIsReserved(body: seq<Event>, k: nat)
    requires k < |body| && Heading(body[k]) && Existing(body[k].attributes).Some? && ValidId(IdOf(body[k]))
    ensures IdOf(body[k]) in Reserved(body)
  {
    FoundIsThere(body[k].attributes);
    var a := Attribute(SECTION_ID, IdOf(body[k]));
    assert a in body[k].attributes;
  }

  lemma {:induction false} FoundIsThere(attributes: seq<Attribute>)
    requires Existing(attributes).Some?
    ensures Attribute(SECTION_ID, Existing(attributes).value) in attributes
  {
    if attributes[0].key != SECTION_ID { FoundIsThere(attributes[1..]); }
  }

  /** Heading `k` carries a valid id that no earlier heading carries. */
  predicate FirstOfItsId(body: seq<Event>, k: nat) {
    && k < |body| && Heading(body[k]) && ValidId(IdOf(body[k]))
    && forall j :: 0 <= j < k && Heading(body[j]) ==> IdOf(body[j]) != IdOf(body[k])
  }

  /** What the second pass has achieved after `n` events. */
  ghost predicate Rewritten(body: seq<Event>, n: nat, p: Pass) {
    && n <= |body| && |p.out| == n
    && (forall k :: 0 <= k < n && !Heading(body[k]) ==> p.out[k] == body[k])
    && (forall k :: 0 <= k < n && Heading(body[k]) ==> Heading(p.out[k]) && p.out[k] == WithId(body[k], IdOf(p.out[k])) && ValidId(IdOf(p.out[k])))
  }

  predicate CarriedBy(out: seq<Event>, id: string) {
    exists k :: 0 <= k < |out| && Heading(out[k]) && IdOf(out[k]) == id
  }

  ghost predicate DistinctIds(out: seq<Event>) {
    forall j, k :: 0 <= j < k < |out| && Heading(out[j]) && Heading(out[k]) ==> IdOf(out[j]) != IdOf(out[k])
  }

  ghost predicate UsedIds(body: seq<Event>, n: nat, p: Pass)
    requires n <= |body|
  {
    && (forall x :: x in p.used <==> CarriedBy(p.out, x))
    && (forall k :: 0 <= k < n && Heading(body[k]) && ValidId(IdOf(body[k])) ==> IdOf(body[k]) in p.used)
    && (forall x :: x in p.used && x in Reserved(body) ==> CarriedBy(body[..n], x))
  }

  ghost predicate KeepsOrDraws(body: seq<Event>, k: nat, e: Event)
    requires k < |body| && Heading(body[k])
  {
    Heading(e) && if FirstOfItsId(body, k) then IdOf(e) == IdOf(body[k]) else IdOf(e) !in Reserved(body)
  }

  /** Headings keep the ids they carry first, and every other id is one the body did not carry. */
  ghost predicate KeptIds(body: seq<Event>, n: nat, out: seq<Event>)
    requires n <= |body| && |out| == n
  {
    forall k :: 0 <= k < n && Heading(body[k]) ==> KeepsOrDraws(body, k, out[k])
  }

  lemma VisitHeading(body: seq<Event>, n: nat, p: Pass, draws: nat -> string)
    requires Supply(draws, |p.used + Reserved(body)|) && n < |body| && Heading(body[n]) && Rewritten(body, n, p) && UsedIds(body, n, p)
    ensures var q := Visit(p, body[n], Reserved(body), draws);
      && |q.out| == n + 1 && q.out[..n] == p.out && Heading(q.out[n]) && q.out[n] == WithId(body[n], IdOf(q.out[n]))
      && q.used == p.used + {IdOf(q.out[n])} && ValidId(IdOf(q.out[n])) && IdOf(q.out[n]) !in p.used
      && (FirstOfItsId(body, n) <==> Keeps(body[n], p.used))
      && (if Keeps(body[n], p.used) then IdOf(q.out[n]) == IdOf(body[n]) else IdOf(q.out[n]) !in Reserved(body))
  {
    hide WithoutId, Existing, FirstFree, Reserved;
    var q := Visit(p, body[n], Reserved(body), draws);
    var id := if Keeps(body[n], p.used) then IdOf(body[n]) else draws(FirstFree(draws, p.next, p.used + Reserved(body)));
    assert q.out == p.out + [WithId(body[n], id)];
    IdIsFound(body[n], id);
    if ValidId(IdOf(body[n])) {
      ExistingIsReserved(body, n) by { InvalidIsEmpty(body[n]); }
      if IdOf(body[n]) in p.used {
        assert CarriedBy(body[..n], IdOf(body[n]));
        var j :| 0 <= j < n && Heading(body[..n][j]) && IdOf(body[..n][j]) == IdOf(body[n]);
        assert Heading(body[j]) && IdOf(body[j]) == IdOf(body[n]);
      }
    }
    InvalidIsEmpty(body[n]);
  }

  lemma InvalidIsEmpty(e: Event)
    requires Heading(e)
    ensures ValidId(IdOf(e)) <==> Existing(e.attributes).Some? && ValidId(Existing(e.attributes).value)
  {
    assert PREFIX != "";
  }

  /** The second pass takes one more event. */
  ghost predicate Next(body: seq<Event>, n: nat, p: Pass, q: Pass) {
    && n < |body| && |p.out| == n && |q.out| == n + 1 && q.out[..n] == p.out
    && (if Heading(body[n]) then NextHeading(body, n, p, q) else q.out[n] == body[n] && q.used == p.used)
  }

  ghost predicate NextHeading(body: seq<Event>, n: nat, p: Pass, q: Pass)
    requires n < |body| && |q.out| == n + 1 && Heading(body[n])
  {
    && Heading(q.out[n]) && q.out[n] == WithId(body[n], IdOf(q.out[n])) && q.used == p.used + {IdOf(q.out[n])} && ValidId(IdOf(q.out[n]))
    && IdOf(q.out[n]) !in p.used && KeepsOrDraws(body, n, q.out[n])
    && (IdOf(q.out[n]) in Reserved(body) ==> IdOf(q.out[n]) == IdOf(body[n]))
    && (ValidId(IdOf(body[n])) && IdOf(body[n]) !in p.used ==> IdOf(q.out[n]) == IdOf(body[n]))
  }

  lemma VisitIsNext(body: seq<Event>, n: nat, p: Pass, draws: nat -> string)
    requires Supply(draws, |p.used + Reserved(body)|) && n < |body| && Rewritten(body, n, p) && UsedIds(body, n, p)
    ensures Next(body, n, p, Visit(p, body[n], Reserved(body), draws))
  {
    var q := Visit(p, body[n], Reserved(body), draws);
    hide Reserved, WithId, IdOf, ValidId, FirstOfItsId, UsedIds, Rewritten;
    if Heading(body[n]) {
      VisitHeading(body, n, p, draws);
      InvalidIsEmpty(body[n]);
      hide Visit;
      KeepsIff(body[n], p.used);
    }
  }

  lemma KeepsIff(e: Event, used: set<string>)
    requires Heading(e)
    ensures Keeps(e, used) <==> ValidId(IdOf(e)) && IdOf(e) !in used
  {
    InvalidIsEmpty(e);
  }

  lemma NextIsRewritten(body: seq<Event>, n: nat, p: Pass, q: Pass)
    requires Next(body, n, p, q) && Rewritten(body, n, p)
    ensures Rewritten(body, n + 1, q)
  {
    hide Reserved, WithId, IdOf, ValidId, KeepsOrDraws;
    assert forall k :: 0 <= k < n ==> q.out[k] == p.out[k];
  }

  lemma NextIsKept(body: seq<Event>, n: nat, p: Pass, q: Pass)
    requires Next(body, n, p, q) && KeptIds(body, n, p.out)
    ensures KeptIds(body, n + 1, q.out)
  {
    hide Reserved, WithId, IdOf, ValidId, KeepsOrDraws;
    assert forall k :: 0 <= k < n ==> q.out[k] == p.out[k];
  }

  lemma NextIsDistinct(body: seq<Event>, n: nat, p: Pass, q: Pass)
    requires Next(body, n, p, q) && DistinctIds(p.out) && forall x :: x in p.used <==> CarriedBy(p.out, x)
    ensures DistinctIds(q.out)
  {
    hide Reserved, WithId, IdOf, ValidId, KeepsOrDraws;
    assert forall k :: 0 <= k < n ==> q.out[k] == p.out[k];
    forall j | 0 <= j < n && Heading(q.out[j]) && Heading(q.out[n])
      ensures IdOf(q.out[j]) != IdOf(q.out[n])
    {
      assert CarriedBy(p.out, IdOf(p.out[j]));
    }
  }

  lemma NextIsUsed(body: seq<Event>, n: nat, p: Pass, q: Pass)
    requires Next(body, n, p, q) && UsedIds(body, n, p)
    ensures UsedIds(body, n + 1, q)
  {
    hide Reserved, WithId, IdOf, ValidId, CarriedBy, KeepsOrDraws;
    CarriedGrows(p.out, q.out);
    assert body[..n + 1][..n] == body[..n];
    CarriedGrows(body[..n], body[..n + 1]);
  }

  lemma {:induction false} PassIsSound(body: seq<Event>, n: nat, draws: nat -> string)
    requires Enough(body, draws) && n <= |body|
    ensures var p := After(body, n, Reserved(body), draws);
      Rewritten(body, n, p) && UsedIds(body, n, p) && DistinctIds(p.out) && KeptIds(body, n, p.out)
  {
    hide Reserved, WithId, IdOf, ValidId, KeepsOrDraws, Visit, Next;
    if n > 0 {
      var p, q := After(body, n - 1, Reserved(body), draws), After(body, n, Reserved(body), draws);
      PassIsSound(body, n - 1, draws);
      hide After, Rewritten, UsedIds, DistinctIds, KeptIds;
      VisitIsNext(body, n - 1, p, draws);
      assert Next(body, n - 1, p, q) by { AfterUnfolds(body, n, draws); }
      NextIsRewritten(body, n - 1, p, q);
      NextIsKept(body, n - 1, p, q);
      UsedAreCarried(body, n - 1, p);
      NextIsDistinct(body, n - 1, p, q);
      NextIsUsed(body, n - 1, p, q);
    }
  }

  lemma UsedAreCarried(body: seq<Event>, n: nat, p: Pass)
    requires n <= |body| && UsedIds(body, n, p)
    ensures forall x :: x in p.used <==> CarriedBy(p.out, x)
  {
    hide CarriedBy;
  }

  lemma AfterUnfolds(body: seq<Event>, n: nat, draws: nat -> string)
    requires Enough(body, draws) && 0 < n <= |body|
    ensures After(body, n, Reserved(body), draws) == Visit(After(body, n - 1, Reserved(body), draws), body[n - 1], Reserved(body), draws)
  {
  }

  // The promises of the normaliser.

  /** Nothing but the section ids of headings changes: each event stays where it is, and a heading keeps its name and other attributes. */
  lemma OnlyIdsChange(body: seq<Event>, fails: bool, draws: nat -> string, k: nat)
    requires Enough(body, draws) && k < |body|
    ensures var out := Normalize(body, fails, draws);
      && |out| == |body|
      && (fails || !Heading(body[k]) ==> out[k] == body[k])
      && (!fails && Heading(body[k]) ==> Heading(out[k]) && out[k].name == body[k].name && WithoutId(out[k].attributes) == WithoutId(body[k].attributes))
  {
    if !fails {
      PassIsSound(body, |body|, draws);
      hide UsedIds, DistinctIds, KeptIds, After;
      if Heading(body[k]) {
        var out := Normalize(body, fails, draws);
        StripAppended(body[k].attributes, IdOf(out[k]));
      }
    }
  }

  lemma {:induction false} StripAppended(attributes: seq<Attribute>, id: string)
    ensures WithoutId(WithoutId(attributes) + [Attribute(SECTION_ID, id)]) == WithoutId(attributes)
  {
    if attributes != [] {
      StripAppended(attributes[1..], id);
      if attributes[0].key != SECTION_ID {
        assert (WithoutId(attributes) + [Attribute(SECTION_ID, id)])[1..] == WithoutId(attributes[1..]) + [Attribute(SECTION_ID, id)];
      }
    }
  }

  /** Every heading of the result has a valid id, and no two have the same. */
  lemma EveryHeadingHasItsOwnId(body: seq<Event>, draws: nat -> string)
    requires Enough(body, draws)
    ensures var out := Normalize(body, false, draws);
      DistinctIds(out) && forall k :: 0 <= k < |out| && Heading(out[k]) ==> ValidId(IdOf(out[k]))
  {
    PassIsSound(body, |body|, draws);
    hide UsedIds, KeptIds, After;
  }

  /** A heading keeps its id exactly when that id is valid and no heading before it carries it. */
  lemma FirstOccurrenceIsKept(body: seq<Event>, draws: nat -> string, k: nat)
    requires Enough(body, draws) && k < |body| && Heading(body[k])
    ensures var out := Normalize(body, false, draws);
      |out| == |body| && Heading(out[k]) && (IdOf(out[k]) == IdOf(body[k]) <==> FirstOfItsId(body, k))
  {
    PassIsSound(body, |body|, draws);
    assert ValidId(IdOf(Normalize(body, false, draws)[k]));
    hide UsedIds, DistinctIds, After;
    assert KeepsOrDraws(body, k, Normalize(body, false, draws)[k]);
    if ValidId(IdOf(body[k])) {
      InvalidIsEmpty(body[k]);
      ExistingIsReserved(body, k);
    }
  }

  /** Normalising a second time, with whatever supply, changes nothing. */
  lemma NormalizeIsIdempotent(body: seq<Event>, fails: bool, draws: nat -> string, again: nat -> string)
    requires Enough(body, draws) && Enough(Normalize(body, fails, draws), again)
    ensures Normalize(Normalize(body, fails, draws), fails, again) == Normalize(body, fails, draws)
  {
    if !fails {
      var once := Normalize(body, fails, draws);
      var twice := Normalize(once, fails, again);
      EveryHeadingHasItsOwnId(body, draws);
      PassIsSound(body, |body|, draws);
      PassIsSound(once, |once|, again);
      hide UsedIds, Reserved, FirstOfItsId, DistinctIds, After, Normalize, KeptIds;
      forall k | 0 <= k < |once|
        ensures twice[k] == once[k]
      {
        Unchanged(body, draws, again, k);
      }
    }
  }

  lemma Unchanged(body: seq<Event>, draws: nat -> string, again: nat -> string, k: nat)
    requires Enough(body, draws) && Enough(Normalize(body, false, draws), again) && k < |body|
    ensures var once := Normalize(body, false, draws);
      |once| == |body| && |Normalize(once, false, again)| == |body| && Normalize(once, false, again)[k] == once[k]
  {
    var once := Normalize(body, false, draws);
    PassIsSound(body, |body|, draws);
    PassIsSound(once, |once|, again);
    hide UsedIds, After, KeptIds, Reserved;
    if Heading(once[k]) {
      EveryHeadingHasItsOwnId(body, draws);
      assert FirstOfItsId(once, k);
      FirstOccurrenceIsKept(once, again, k);
      StripAppended(body[k].attributes, IdOf(once[k]));
      hide WithoutId, IdOf, ValidId;
    }
  }

  lemma CarriedGrows(a: seq<Event>, b: seq<Event>)
    requires |b| == |a| + 1 && b[..|a|] == a
    ensures forall x :: CarriedBy(b, x) <==> CarriedBy(a, x) || (Heading(b[|a|]) && x == IdOf(b[|a|]))
  {
    forall x
      ensures CarriedBy(b, x) <==> CarriedBy(a, x) || (Heading(b[|a|]) && x == IdOf(b[|a|]))
    {
      if CarriedBy(a, x) {
        var k :| 0 <= k < |a| && Heading(a[k]) && IdOf(a[k]) == x;
        assert b[k] == a[k];
      }
      if CarriedBy(b, x) {
        var k :| 0 <= k < |b| && Heading(b[k]) && IdOf(b[k]) == x;
        if k < |a| { assert b[k] == a[k]; }
      }
    }
  }

  // Such supplies exist.

  function Digits(n: nat): (r: string)
    ensures r != [] && forall k :: 0 <= k < |r| ==> '0' <= r[k] <= '9'
  {
    if n < 10 then [('0' as int + n) as char] else Digits(n / 10) + [('0' as int + n % 10) as char]
  }

  lemma {:induction false} DigitsDiffer(m: nat, n: nat)
    requires Digits(m) == Digits(n)
    ensures m == n
  {
    var a, b := Digits(m), Digits(n);
    if m >= 10 && n >= 10 {
      assert a[..|a| - 1] == Digits(m / 10) && b[..|b| - 1] == Digits(n / 10);
      assert a[|a| - 1] == b[|b| - 1];
      DigitsDiffer(m / 10, n / 10);
    }
  }

  function PowerOf10(k: nat): nat {
    if k == 0 then 1 else 10 * PowerOf10(k - 1)
  }

  lemma {:induction false} DigitsAreFew(n: nat, k: nat)
    requires 1 <= k && n < PowerOf10(k)
    ensures |Digits(n)| <= k
  {
    if n >= 10 { DigitsAreFew(n / 10, k - 1); }
  }

  function Numbered(n: nat): string {
    PREFIX + Digits(n)
  }

  lemma NumberedIsValid(n: nat)
    requires n < PowerOf10(80)
    ensures ValidId(Numbered(n))
  {
    DigitsAreFew(n, 80);
    hide PowerOf10;
  }

  lemma NumberedDiffer(m: nat, n: nat)
    requires Numbered(m) == Numbered(n)
    ensures m == n
  {
    assert Numbered(m)[|PREFIX|..] == Digits(m) && Numbered(n)[|PREFIX|..] == Digits(n);
    DigitsDiffer(m, n);
  }

  /** Fewer taken ids than numbers below `n` leave one of those numbers free. */
  lemma {:induction false} OneIsFree(n: nat, taken: set<string>) returns (r: nat)
    requires |taken| < n
    ensures r < n && Numbered(r) !in taken
    decreases n
  {
    r := n - 1;
    if Numbered(r) in taken {
      var rest := taken - {Numbered(n - 1)};
      r := OneIsFree(n - 1, rest);
      if Numbered(r) in taken {
        NumberedDiffer(r, n - 1);
      }
    }
  }

  function Wrapped(i: nat, period: nat): (r: nat)
    requires period > 0
    ensures r < period
  {
    if i < period then i else Wrapped(i - period, period)
  }

  lemma {:induction false} WrapsAround(next: nat, period: nat, r: nat)
    requires r < period
    ensures next * period + r >= next && Wrapped(next * period + r, period) == r
  {
    if next > 0 {
      WrapsAround(next - 1, period, r);
      assert next * period == (next - 1) * period + period;
    }
  }

  /** For every body whose needs stay below 10^80, drawing numbered ids round and round is enough. */
  lemma EnoughExists(body: seq<Event>) returns (draws: nat -> string)
    requires |body| + |Reserved(body)| + 1 < PowerOf10(80)
    ensures Enough(body, draws)
  {
    hide Reserved, PowerOf10, ValidId, Numbered;
    var period := |body| + |Reserved(body)| + 1;
    draws := (i: nat) => Numbered(Wrapped(i, period));
    forall i: nat
      ensures ValidId(draws(i))
    {
      NumberedIsValid(Wrapped(i, period));
    }
    forall next: nat, taken: set<string> | |taken| <= |body| + |Reserved(body)|
      ensures HasFree(draws, next, taken)
    {
      var r := OneIsFree(period, taken);
      WrapsAround(next, period, r);
      assert draws(next * period + r) !in taken;
    }
  }
}
