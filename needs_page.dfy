/** The urgent-needs page of `app/needs/page.tsx`: the category and
    charity-name filter, the urgency colour bands, the claim modal with its
    quantity stepper and the database update a claim writes, the zip-code
    field, the sort by distance and the charity-name suggestions. The
    database, the mail endpoint and the distance service are inputs. */
module NeedsPage {
  import opened Wrappers
  import opened Text

  /** An urgent need as the page holds it after loading. */
  datatype Need = Need(id: int, charity: string, charityEmail: string, charityZip: Option<string>,
                       item: string, quantity: int, category: string, urgencyHours: int)

  function Max(a: int, b: int): int { if a < b then b else a }
  function Min(a: int, b: int): int { if a < b then a else b }

  /** `need.category || 'other'`: a missing or empty category reads as
      "other". */
  function CategoryOrOther(raw: Option<string>): (c: string)
    ensures c != ""
    ensures raw.Some? && raw.value != "" ==> c == raw.value
    ensures raw.None? || raw.value == "" ==> c == "other"
  {
    if raw.Some? && raw.value != "" then raw.value else "other"
  }

  // ----- filter ---------------------------------------------------------------

  predicate MatchesCategory(n: Need, category: string)
  {
    category == "all" || ToLower(n.category) == ToLower(category)
  }

  predicate MatchesQuery(n: Need, query: string)
  {
    query == "" || Contains(ToLower(n.charity), ToLower(query))
  }

  /** `filterNeeds`: start from all needs, narrow by category unless it is
      "all", then by charity name when a query is typed. The result keeps
      the needs' order and holds exactly the needs that pass both tests. */
  method FilterNeeds(needs: seq<Need>, category: string, query: string) returns (filtered: seq<Need>)
    ensures IsSubsequence(filtered, needs)
    ensures forall n :: n in filtered <==> n in needs && MatchesCategory(n, category) && MatchesQuery(n, query)
    ensures category == "all" && query == "" ==> filtered == needs
  {
    filtered := needs;
    SubsequenceReflexive(needs);
    if category != "all" {
      var narrowed := Filter(filtered, (n: Need) => ToLower(n.category) == ToLower(category));
      SubsequenceTransitive(narrowed, filtered, needs);
      filtered := narrowed;
    }
    if query != "" {
      var narrowed := Filter(filtered, (n: Need) => Contains(ToLower(n.charity), ToLower(query)));
      SubsequenceTransitive(narrowed, filtered, needs);
      filtered := narrowed;
    }
  }

  // ----- urgency --------------------------------------------------------------

  /** The four colour bands of `getUrgencyColor`. */
  datatype UrgencyColor = Red | Orange | Yellow | Blue

  function UrgencyColorOf(hours: int): UrgencyColor
  {
    if hours <= 12 then Red
    else if hours <= 24 then Orange
    else if hours <= 48 then Yellow
    else Blue
  }

  /** How pressing a band is, Red highest. */
  function Severity(c: UrgencyColor): nat
  {
    match c
    case Red => 3
    case Orange => 2
    case Yellow => 1
    case Blue => 0
  }

  /** The bands cover every number of hours with thresholds 12, 24 and 48
      (each inclusive), and fewer hours never look less urgent. */
  lemma {:induction false} UrgencyBands(hours: int, later: int)
    requires hours <= later
    ensures UrgencyColorOf(hours) == Red <==> hours <= 12
    ensures UrgencyColorOf(hours) == Orange <==> 12 < hours <= 24
    ensures UrgencyColorOf(hours) == Yellow <==> 24 < hours <= 48
    ensures UrgencyColorOf(hours) == Blue <==> 48 < hours
    ensures Severity(UrgencyColorOf(later)) <= Severity(UrgencyColorOf(hours))
  {
  }

  // ----- claim ----------------------------------------------------------------

  /** The `updateData` object a claim writes: always the quantity, and the
      three claim fields only when they are set. */
  datatype NeedUpdate = NeedUpdate(quantity: int, status: Option<string>, claimedAt: Option<string>,
                                   claimedByEmail: Option<string>)

  /** The update a claim of `donated` units against `quantity` writes. */
  function ClaimUpdate(quantity: int, donated: int, donorEmail: string, now: string): NeedUpdate
  {
    if quantity - donated <= 0 then NeedUpdate(0, Some("claimed"), Some(now), Some(donorEmail))
    else NeedUpdate(quantity - donated, None, None, None)
  }

  /** The construction of `updateData` in `handleClaimItem`: the clamped
      quantity first, then the claim fields when the need is fully met. */
  method BuildUpdate(quantity: int, donated: int, donorEmail: string, now: string) returns (update: NeedUpdate)
    ensures update == ClaimUpdate(quantity, donated, donorEmail, now)
  {
    var newQuantity := quantity - donated;
    var isFullyFulfilled := newQuantity <= 0;
    update := NeedUpdate(Max(0, newQuantity), None, None, None);
    if isFullyFulfilled {
      update := update.(status := Some("claimed"));
      update := update.(claimedAt := Some(now));
      update := update.(claimedByEmail := Some(donorEmail));
    }
  }

  /** A stored need row, as far as a claim touches it. */
  datatype NeedRow = NeedRow(quantity: int, status: string, claimedAt: Option<string>,
                             claimedByEmail: Option<string>, item: string, category: string)

  /** The database's `update`: fields present in the update are written,
      all others are kept. */
  function ApplyUpdate(row: NeedRow, u: NeedUpdate): NeedRow
  {
    NeedRow(u.quantity,
            if u.status.Some? then u.status.value else row.status,
            if u.claimedAt.Some? then u.claimedAt else row.claimedAt,
            if u.claimedByEmail.Some? then u.claimedByEmail else row.claimedByEmail,
            row.item, row.category)
  }

  /** A claim never stores a negative quantity; it marks the need claimed
      by the donor, with quantity 0, exactly when the donation covers what
      is still needed, and otherwise changes the quantity and nothing
      else. */
  lemma {:induction false} ClaimOutcome(row: NeedRow, donated: int, donorEmail: string, now: string)
    requires row.status == "available"
    ensures var after := ApplyUpdate(row, ClaimUpdate(row.quantity, donated, donorEmail, now));
      && after.quantity >= 0
      && (after.status == "claimed" <==> donated >= row.quantity)
      && (donated >= row.quantity ==>
            after.quantity == 0 && after.claimedByEmail == Some(donorEmail) && after.claimedAt == Some(now))
      && (donated < row.quantity ==> after == row.(quantity := row.quantity - donated))
  {
  }

  /** Two claims in a row by the same donor, the first partial, leave the
      row as one claim of their sum would. */
  lemma {:induction false} ClaimsAddUp(row: NeedRow, first: int, second: int, donorEmail: string, now: string)
    requires row.status == "available" && first < row.quantity
    ensures var once := ApplyUpdate(row, ClaimUpdate(row.quantity, first, donorEmail, now));
      ApplyUpdate(once, ClaimUpdate(once.quantity, second, donorEmail, now))
        == ApplyUpdate(row, ClaimUpdate(row.quantity, first + second, donorEmail, now))
  {
  }

  // ----- quantity stepper -------------------------------------------------------

  /** The minus button: `Math.max(1, q - 1)`. */
  function Decrement(q: int): int { Max(1, q - 1) }

  /** The plus button: `Math.min(available, q + 1)`. */
  function Increment(q: int, available: int): int { Min(available, q + 1) }

  /** The typed value: `parseInt(text) || 1` (zero and unparsable text both
      read as 1), then clamped to [1, available]. */
  function TypedQuantity(text: string, available: int): int
  {
    var parsed := ParseInt(text);
    var val := if parsed.None? || parsed.value == 0 then 1 else parsed.value;
    Min(Max(1, val), available)
  }

  /** For a need of at least one unit, every stepper action keeps the
      donor quantity within [1, available]; typed text that does not parse
      gives 1; a typed number already in range is kept. */
  lemma {:induction false} StepperStaysInRange(q: int, available: int, text: string)
    requires 1 <= q <= available
    ensures 1 <= Decrement(q) <= available
    ensures 1 <= Increment(q, available) <= available
    ensures 1 <= TypedQuantity(text, available) <= available
    ensures ParseInt(text).None? ==> TypedQuantity(text, available) == 1
    ensures ParseInt(text).Some? && 1 <= ParseInt(text).value <= available ==>
              TypedQuantity(text, available) == ParseInt(text).value
  {
  }

  /** The claim modal: the selected need, the donor's entries, and what
      submitting has sent to the database and the mail endpoint. */
  class ClaimModal {
    var selected: Option<Need>
    var donorEmail: string
    var donorName: string
    var donorQuantity: int
    var isSubmitting: bool
    /** The `(id, updateData)` pairs sent to the database, oldest first. */
    var updates: seq<(int, NeedUpdate)>
    /** The recipients of the mail requests, oldest first. */
    var mails: seq<string>

    /** The donor quantity lies within the selected need's range. */
    predicate QuantityInRange()
      reads this
    {
      selected.Some? && selected.value.quantity >= 1 ==> 1 <= donorQuantity <= selected.value.quantity
    }

    /** The page's initial state: no need selected, quantity 1. */
    constructor ()
      ensures selected.None? && donorEmail == "" && donorName == "" && donorQuantity == 1
      ensures !isSubmitting && updates == [] && mails == []
      ensures QuantityInRange()
    {
      selected, donorEmail, donorName, donorQuantity := None, "", "", 1;
      isSubmitting, updates, mails := false, [], [];
    }

    /** "Help Now": select the need and start from one unit. */
    method Open(need: Need)
      modifies this
      ensures selected == Some(need) && donorQuantity == 1
      ensures donorEmail == old(donorEmail) && donorName == old(donorName) && isSubmitting == old(isSubmitting)
      ensures updates == old(updates) && mails == old(mails)
      ensures need.quantity >= 1 ==> QuantityInRange()
    {
      selected := Some(need);
      donorQuantity := 1;
    }

    method DecreaseQuantity()
      modifies this
      ensures donorQuantity == Decrement(old(donorQuantity))
      ensures selected == old(selected) && donorEmail == old(donorEmail) && donorName == old(donorName)
      ensures isSubmitting == old(isSubmitting) && updates == old(updates) && mails == old(mails)
      ensures old(QuantityInRange()) ==> QuantityInRange()
    {
      donorQuantity := Max(1, donorQuantity - 1);
    }

    method IncreaseQuantity()
      requires selected.Some?
      modifies this
      ensures donorQuantity == Increment(old(donorQuantity), old(selected).value.quantity)
      ensures selected == old(selected) && donorEmail == old(donorEmail) && donorName == old(donorName)
      ensures isSubmitting == old(isSubmitting) && updates == old(updates) && mails == old(mails)
      ensures old(QuantityInRange()) ==> QuantityInRange()
    {
      donorQuantity := Min(selected.value.quantity, donorQuantity + 1);
    }

    method TypeQuantity(text: string)
      requires selected.Some?
      modifies this
      ensures donorQuantity == TypedQuantity(text, old(selected).value.quantity)
      ensures selected == old(selected) && donorEmail == old(donorEmail) && donorName == old(donorName)
      ensures isSubmitting == old(isSubmitting) && updates == old(updates) && mails == old(mails)
      ensures QuantityInRange()
    {
      var parsed := ParseInt(text);
      var val := if parsed.None? || parsed.value == 0 then 1 else parsed.value;
      donorQuantity := Min(Max(1, val), selected.value.quantity);
    }

    /** Cancel: close the modal and clear the donor's entries. */
    method Cancel()
      modifies this
      ensures selected.None? && donorEmail == "" && donorName == "" && donorQuantity == 1
      ensures isSubmitting == old(isSubmitting) && updates == old(updates) && mails == old(mails)
      ensures QuantityInRange()
    {
      selected := None;
      donorEmail := "";
      donorName := "";
      donorQuantity := 1;
    }

    /** `handleClaimItem`: nothing happens without an email, a name and a
        selected need. Otherwise the claim's update is written; when the
        write fails the modal stays open with its entries, and otherwise a
        mail goes to the donor and one to the charity and the modal is
        reset. `updateFails` is the database's answer. */
    method HandleClaimItem(now: string, updateFails: bool)
      modifies this
      ensures old(donorEmail == "" || donorName == "" || selected.None?) ==>
                selected == old(selected) && donorQuantity == old(donorQuantity)
                && donorEmail == old(donorEmail) && donorName == old(donorName)
                && isSubmitting == old(isSubmitting) && updates == old(updates) && mails == old(mails)
      ensures old(donorEmail != "" && donorName != "" && selected.Some?) ==>
                && updates == old(updates) + [(old(selected).value.id,
                     ClaimUpdate(old(selected).value.quantity, old(donorQuantity), old(donorEmail), now))]
                && !isSubmitting
      ensures old(donorEmail != "" && donorName != "" && selected.Some?) && updateFails ==>
                selected == old(selected) && donorEmail == old(donorEmail) && donorName == old(donorName)
                && donorQuantity == old(donorQuantity) && mails == old(mails)
      ensures old(donorEmail != "" && donorName != "" && selected.Some?) && !updateFails ==>
                mails == old(mails) + [old(donorEmail), old(selected).value.charityEmail]
                && selected.None? && donorEmail == "" && donorName == "" && donorQuantity == 1
      ensures old(QuantityInRange()) ==> QuantityInRange()
    {
      if donorEmail == "" || donorName == "" || selected.None? {
        return;
      }
      isSubmitting := true;
      var need := selected.value;
      var update := BuildUpdate(need.quantity, donorQuantity, donorEmail, now);
      updates := updates + [(need.id, update)];
      if updateFails {
        isSubmitting := false;
        return;
      }
      mails := mails + [donorEmail, need.charityEmail];
      selected := None;
      donorEmail := "";
      donorName := "";
      donorQuantity := 1;
      isSubmitting := false;
    }
  }

  // ----- zip code and distance ----------------------------------------------------

  /** The zip field's `onChange`: the digits typed, at most five. */
  function ZipInput(value: string): (zip: string)
    ensures AllDigits(zip) && |zip| <= 5
    ensures zip <= Digits(value)
    ensures |Digits(value)| <= 5 ==> zip == Digits(value)
    ensures |zip| == if |Digits(value)| < 5 then |Digits(value)| else 5
  {
    var zip := Take(Digits(value), 5);
    assert forall k :: 0 <= k < |zip| ==> zip[k] == Digits(value)[k];
    zip
  }

  /** Retyping the field's own text changes nothing. */
  lemma {:induction false} ZipInputIdempotent(value: string)
    ensures ZipInput(ZipInput(value)) == ZipInput(value)
  {
    DigitsOfDigits(ZipInput(value));
  }

  /** A need paired with its computed distance. */
  datatype Ranked = Ranked(need: Need, distance: real)

  /** 999 for a need without a charity zip code, otherwise what the
      distance service answers for the two zip codes. */
  function DistanceOf(need: Need, userZip: string, distance: (string, string) -> real): real
  {
    if need.charityZip.Some? && need.charityZip.value != "" then distance(userZip, need.charityZip.value)
    else 999.0
  }

  /** `needsWithDistance`: each shown need with its distance, in order. */
  function WithDistances(shown: seq<Need>, userZip: string, distance: (string, string) -> real): (rs: seq<Ranked>)
    ensures |rs| == |shown|
    ensures forall i :: 0 <= i < |shown| ==> rs[i] == Ranked(shown[i], DistanceOf(shown[i], userZip, distance))
  {
    if shown == [] then []
    else [Ranked(shown[0], DistanceOf(shown[0], userZip, distance))] + WithDistances(shown[1..], userZip, distance)
  }

  predicate SortedByDistance(rs: seq<Ranked>)
  {
    forall i, j :: 0 <= i < j < |rs| ==> rs[i].distance <= rs[j].distance
  }

  /** Insert `r` before the first element at least as far away. */
  function Insert(r: Ranked, sorted: seq<Ranked>): (out: seq<Ranked>)
    requires SortedByDistance(sorted)
    ensures SortedByDistance(out)
    ensures multiset(out) == multiset(sorted) + multiset{r}
  {
    if sorted == [] || r.distance <= sorted[0].distance then
      SortedCons(r, sorted);
      [r] + sorted
    else
      var rest := Insert(r, sorted[1..]);
      assert sorted == [sorted[0]] + sorted[1..];
      HeadBelowRest(sorted, r, rest);
      SortedCons(sorted[0], rest);
      [sorted[0]] + rest
  }

  /** A sorted list stays sorted behind a head no farther than any of it. */
  lemma {:induction false} SortedCons(x: Ranked, rest: seq<Ranked>)
    requires SortedByDistance(rest)
    requires forall k :: 0 <= k < |rest| ==> x.distance <= rest[k].distance
    ensures SortedByDistance([x] + rest)
  {
    var out := [x] + rest;
    forall i, j | 0 <= i < j < |out| ensures out[i].distance <= out[j].distance {
      if i > 0 {
        assert out[i] == rest[i - 1] && out[j] == rest[j - 1];
      } else {
        assert out[j] == rest[j - 1];
      }
    }
  }

  /** The head of a sorted list is no farther than anything made of its
      tail and a farther element. */
  lemma {:induction false} HeadBelowRest(sorted: seq<Ranked>, r: Ranked, rest: seq<Ranked>)
    requires SortedByDistance(sorted) && sorted != [] && sorted[0].distance < r.distance
    requires multiset(rest) == multiset(sorted[1..]) + multiset{r}
    ensures forall k :: 0 <= k < |rest| ==> sorted[0].distance <= rest[k].distance
  {
    forall k | 0 <= k < |rest| ensures sorted[0].distance <= rest[k].distance {
      assert rest[k] in multiset(rest);
      if rest[k] != r {
        assert rest[k] in multiset(sorted[1..]);
        var m :| 0 <= m < |sorted[1..]| && sorted[1..][m] == rest[k];
        assert sorted[m + 1] == rest[k];
      }
    }
  }

  /** The comparator sort `(a, b) => a.calculatedDistance - b.calculatedDistance`,
      as an insertion sort. */
  function SortByDistance(rs: seq<Ranked>): (out: seq<Ranked>)
    ensures SortedByDistance(out)
    ensures multiset(out) == multiset(rs)
  {
    if rs == [] then []
    else
      var rest := SortByDistance(rs[1..]);
      assert rs == [rs[0]] + rs[1..];
      Insert(rs[0], rest)
  }

  /** The entries at distance `d`, as a filter test. */
  function AtDistance(d: real): Ranked -> bool
  {
    (x: Ranked) => x.distance == d
  }

  /** Inserting places the new entry ahead of every entry at its own
      distance, and leaves the entries at other distances as they were. */
  lemma {:induction false} InsertAtDistance(r: Ranked, sorted: seq<Ranked>, d: real)
    requires SortedByDistance(sorted)
    ensures Filter(Insert(r, sorted), AtDistance(d))
            == (if r.distance == d then [r] else []) + Filter(sorted, AtDistance(d))
  {
    if sorted == [] || r.distance <= sorted[0].distance {
      FilterCons(r, sorted, AtDistance(d));
    } else {
      var rest := Insert(r, sorted[1..]);
      assert sorted == [sorted[0]] + sorted[1..];
      InsertAtDistance(r, sorted[1..], d);
      FilterPastFront(sorted[0], r, rest, sorted[1..], AtDistance(d));
    }
  }

  /** The sort is stable, as `Array.prototype.sort` is: entries at the same
      distance keep the order they had. */
  lemma {:induction false} SortByDistanceStable(rs: seq<Ranked>, d: real)
    ensures Filter(SortByDistance(rs), AtDistance(d)) == Filter(rs, AtDistance(d))
  {
    if rs != [] {
      SortByDistanceStable(rs[1..], d);
      InsertAtDistance(rs[0], SortByDistance(rs[1..]), d);
    }
  }

  /** `handleSortByDistance`: refused unless the zip code has five
      characters; otherwise the shown needs, each with its distance (999
      when its charity has no zip code), reordered nearest first. */
  function HandleSortByDistance(userZip: string, shown: seq<Need>, distance: (string, string) -> real)
    : (r: Option<seq<Ranked>>)
    ensures r.None? <==> |userZip| != 5
    ensures r.Some? ==> SortedByDistance(r.value)
    ensures r.Some? ==> multiset(r.value) == multiset(WithDistances(shown, userZip, distance))
  {
    if |userZip| != 5 then None
    else Some(SortByDistance(WithDistances(shown, userZip, distance)))
  }

  /** After sorting, every need shown before is still shown, and the
      sorted list holds nothing else; a need without a zip code carries
      999. */
  lemma {:induction false} SortKeepsNeeds(userZip: string, shown: seq<Need>, distance: (string, string) -> real)
    requires |userZip| == 5
    ensures var sorted := HandleSortByDistance(userZip, shown, distance).value;
      && |sorted| == |shown|
      && (forall n :: n in shown ==> Ranked(n, DistanceOf(n, userZip, distance)) in sorted)
      && (forall x :: x in sorted ==> x.need in shown && x.distance == DistanceOf(x.need, userZip, distance))
  {
    var ranked := WithDistances(shown, userZip, distance);
    var sorted := HandleSortByDistance(userZip, shown, distance).value;
    assert |sorted| == |multiset(sorted)| == |multiset(ranked)| == |ranked|;
    forall n | n in shown ensures Ranked(n, DistanceOf(n, userZip, distance)) in sorted {
      var i :| 0 <= i < |shown| && shown[i] == n;
      assert ranked[i] in multiset(ranked);
    }
    forall x | x in sorted ensures x.need in shown && x.distance == DistanceOf(x.need, userZip, distance) {
      assert x in multiset(ranked);
      var i :| 0 <= i < |ranked| && ranked[i] == x;
    }
  }

  // ----- suggestions ----------------------------------------------------------------

  /** `Array.from(new Set(s))`: each value once, in the order of its first
      occurrence. */
  function Distinct<T(==,!new)>(s: seq<T>): (r: seq<T>)
    ensures forall x :: x in r <==> x in s
    ensures forall i, j :: 0 <= i < j < |r| ==> r[i] != r[j]
    ensures IsSubsequence(r, s)
    ensures InFirstSeenOrder(r, s)
    decreases |s|
  {
    if s == [] then []
    else
      var init := s[..|s| - 1];
      var x := s[|s| - 1];
      assert s == init + [x];
      var p := Distinct(init);
      SubsequenceSnoc(p, init, x);
      forall y | y in init ensures FirstSeen(s, y) == FirstSeen(init, y) {
        FirstSeenOfPrefix(init, [x], y);
      }
      if x in p then p
      else
        FirstSeenOfPrefix(init, [x], x);
        p + [x]
  }

  lemma {:induction false} DistinctSubsequence<T>(a: seq<T>, b: seq<T>)
    requires IsSubsequence(a, b)
    requires forall i, j :: 0 <= i < j < |b| ==> b[i] != b[j]
    ensures forall i, j :: 0 <= i < j < |a| ==> a[i] != a[j]
    decreases |b|
  {
    if a != [] {
      if a[0] == b[0] && IsSubsequence(a[1..], b[1..]) {
        DistinctSubsequence(a[1..], b[1..]);
        forall j | 0 < j < |a| ensures a[0] != a[j] {
          SubsequenceMembers(a[1..], b[1..], a[j]);
          assert a[j] == a[1..][j - 1];
          var k :| 0 <= k < |b[1..]| && b[1..][k] == a[j];
          assert b[k + 1] == a[j];
        }
      } else {
        DistinctSubsequence(a, b[1..]);
      }
    }
  }

  /** The charity name of every loaded need, in order. */
  function CharityNames(needs: seq<Need>): (names: seq<string>)
    ensures |names| == |needs|
    ensures forall i :: 0 <= i < |needs| ==> names[i] == needs[i].charity
    ensures forall name :: name in names ==> exists n :: n in needs && n.charity == name
  {
    if needs == [] then [] else [needs[0].charity] + CharityNames(needs[1..])
  }

  /** The search box's test on a charity name: it contains the query,
      ignoring case. */
  predicate SuggestsFor(query: string, name: string)
  {
    Contains(ToLower(name), ToLower(query))
  }

  /** The charity-name suggestions under the search box: the distinct
      charity names of the loaded needs, in first-seen order, that contain
      the query ignoring case, at most eight. */
  function Suggestions(needs: seq<Need>, query: string): (r: seq<string>)
    ensures |r| <= 8
    ensures forall i, j :: 0 <= i < j < |r| ==> r[i] != r[j]
    ensures forall name :: name in r ==> SuggestsFor(query, name) && name in CharityNames(needs)
    ensures InFirstSeenOrder(r, CharityNames(needs))
    // a matching name is left out only when eight earlier ones fill the list
    ensures forall name :: name in CharityNames(needs) && SuggestsFor(query, name) && name !in r ==>
              |r| == 8 && forall i :: 0 <= i < |r| ==> FirstSeen(CharityNames(needs), r[i]) < FirstSeen(CharityNames(needs), name)
  {
    var names := CharityNames(needs);
    var keep := name => SuggestsFor(query, name);
    var distinct := Distinct(names);
    var matching := Filter(distinct, keep);
    FirstEightOfFilter(names, keep, distinct, matching);
    Take(matching, 8)
  }

  /** The first eight of the distinct kept values, proved for any test
      `keep` from what `Distinct` and `Filter` promise. */
  lemma {:induction false} FirstEightOfFilter<T(!new)>(names: seq<T>, keep: T -> bool, distinct: seq<T>, matching: seq<T>)
    requires forall x :: x in distinct <==> x in names
    requires forall i, j :: 0 <= i < j < |distinct| ==> distinct[i] != distinct[j]
    requires InFirstSeenOrder(distinct, names)
    requires IsSubsequence(matching, distinct)
    requires forall x :: x in matching <==> x in distinct && keep(x)
    ensures var r := Take(matching, 8);
      && (forall i, j :: 0 <= i < j < |r| ==> r[i] != r[j])
      && (forall x :: x in r ==> x in names && keep(x))
      && InFirstSeenOrder(r, names)
      && (forall x :: x in names && keep(x) && x !in r ==>
            |r| == 8 && forall i :: 0 <= i < |r| ==> FirstSeen(names, r[i]) < FirstSeen(names, x))
  {
    DistinctSubsequence(matching, distinct);
    SubsequenceInFirstSeenOrder(matching, distinct, names);
    var r := Take(matching, 8);
    assert forall m :: 0 <= m < |r| ==> r[m] == matching[m];
    forall x | x in r ensures x in matching {
      var k :| 0 <= k < |r| && r[k] == x;
      assert matching[k] == x;
    }
    forall x | x in names && keep(x) && x !in r
      ensures |r| == 8 && forall i :: 0 <= i < |r| ==> FirstSeen(names, r[i]) < FirstSeen(names, x)
    {
      var k :| 0 <= k < |matching| && matching[k] == x;
      assert k >= |r|;
    }
  }
}
