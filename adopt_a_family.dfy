/** The family-sponsorship page of `app/adopt-a-family/page.tsx`: the
    checks on a pledge, the committed total and status written back to the
    family, the funding figures and colour shown on each card, the friends
    invited to a split sponsorship, and the sponsorship form whose friend
    list and fields its handlers update in place. The database, the mail
    endpoint and `parseFloat` are inputs. Amounts are exact reals. */
module AdoptAFamily {
  import opened Wrappers
  import opened Text

  // ----- families -----------------------------------------------------------

  datatype Status = Available | PartiallyAdopted | FullyAdopted

  /** An `adopt_a_family` row, with the contact address of its charity. */
  datatype Family = Family(id: string, amountCommitted: real, estimatedCost: real,
                           status: Status, contactEmail: string)

  /** The page lists the families that are still open to sponsors. */
  predicate Listable(f: Family)
  {
    f.status == Available || f.status == PartiallyAdopted
  }

  /** The listed families, in the order the query returns them. */
  function ListedFamilies(families: seq<Family>): (r: seq<Family>)
    ensures IsSubsequence(r, families)
    ensures forall f :: f in r ==> f.status != FullyAdopted
    ensures forall i :: 0 <= i < |families| && families[i].status != FullyAdopted ==> families[i] in r
  {
    Filter(families, Listable)
  }

  // ----- funding figures ----------------------------------------------------

  /** `Math.max(0, estimated_cost - amount_committed)`: what is still needed. */
  function Remaining(committed: real, cost: real): (r: real)
    ensures r >= 0.0 && r >= cost - committed
    ensures r == 0.0 <==> committed >= cost
    ensures r > 0.0 ==> committed + r == cost
  {
    if cost - committed > 0.0 then cost - committed else 0.0
  }

  /** The percentage scaled against a positive cost compares with a
      threshold as the amounts themselves do. */
  lemma {:induction false} PercentAtLeast(committed: real, cost: real, t: real)
    requires cost > 0.0
    ensures committed / cost * 100.0 >= t <==> committed * 100.0 >= t * cost
  {
    var p := committed / cost;
    assert p * cost == committed;
    if p * 100.0 >= t {
      assert p * 100.0 * cost >= t * cost;
      assert committed * 100.0 == p * 100.0 * cost;
    } else {
      assert p * 100.0 * cost < t * cost;
      assert committed * 100.0 == p * 100.0 * cost;
    }
  }

  /** `Math.min(100, amount_committed / estimated_cost * 100)`, the width
      of the progress bar. `None` stands for the values that are not a
      finite number in the page: `0 / 0` is NaN and a negative amount over
      a zero cost is minus infinity; a positive amount over a zero cost is
      infinity, capped to 100. */
  function PercentFunded(committed: real, cost: real): (p: Option<real>)
    ensures p.Some? ==> p.value <= 100.0
    ensures cost > 0.0 ==> p.Some? && (p.value == 100.0 <==> committed >= cost)
    ensures cost > 0.0 && committed >= 0.0 ==> p.Some? && 0.0 <= p.value
    ensures cost == 0.0 ==> (p == Some(100.0) <==> committed > 0.0) && (p.None? <==> committed <= 0.0)
  {
    if cost == 0.0 then (if committed > 0.0 then Some(100.0) else None)
    else
      var raw := committed / cost * 100.0;
      assert cost > 0.0 ==> (raw >= 100.0 <==> committed >= cost) && (raw >= 0.0 <==> committed >= 0.0) by {
        if cost > 0.0 {
          PercentAtLeast(committed, cost, 100.0);
          PercentAtLeast(committed, cost, 0.0);
        }
      }
      Some(if raw < 100.0 then raw else 100.0)
  }

  const Green: string := "#00b894"
  const Yellow: string := "#fdcb6e"
  const Purple: string := "#667eea"

  /** `getStatusColor`: green from 100% funded, yellow from 50%, purple
      below. Against a positive cost the bands are: green when the amount
      covers the cost, yellow when it covers at least half, purple when it
      covers less than half. Over a zero cost the percentage is infinite
      (green) for a positive amount and NaN or minus infinity (purple)
      otherwise. */
  function StatusColor(committed: real, cost: real): (c: string)
    ensures c == Green || c == Yellow || c == Purple
    ensures cost > 0.0 ==> (c == Green <==> committed >= cost)
    ensures cost > 0.0 ==> (c == Yellow <==> 2.0 * committed >= cost && committed < cost)
    ensures cost > 0.0 ==> (c == Purple <==> 2.0 * committed < cost)
    ensures cost == 0.0 ==> (c == Green <==> committed > 0.0) && c != Yellow
  {
    if cost == 0.0 then (if committed > 0.0 then Green else Purple)
    else
      var percent := committed / cost * 100.0;
      assert cost > 0.0 ==> (percent >= 100.0 <==> committed >= cost)
                            && (percent >= 50.0 <==> 2.0 * committed >= cost) by {
        if cost > 0.0 {
          PercentAtLeast(committed, cost, 100.0);
          PercentAtLeast(committed, cost, 50.0);
        }
      }
      if percent >= 100.0 then Green
      else if percent >= 50.0 then Yellow
      else Purple
  }

  /** On a card with a positive cost the three figures agree: nothing
      remains exactly when the bar is full and exactly when the colour is
      green. */
  lemma {:induction false} FundingFiguresAgree(committed: real, cost: real)
    requires cost > 0.0
    ensures Remaining(committed, cost) == 0.0 <==> PercentFunded(committed, cost) == Some(100.0)
    ensures Remaining(committed, cost) == 0.0 <==> StatusColor(committed, cost) == Green
  {
    var p := PercentFunded(committed, cost);
    assert p.Some?;
  }

  // ----- a pledge -----------------------------------------------------------

  datatype Rejection = Incomplete | InvalidAmount

  /** The two checks before anything is written: name, email, amount and a
      selected family must all be present (otherwise the handler returns
      silently); then the amount must parse (`None` is NaN) and be
      positive. */
  function CheckPledge(donorEmail: string, donorName: string, amountText: string,
                       selected: Option<Family>, parseFloat: string -> Option<real>): (r: Result<real, Rejection>)
    ensures r.Ok? <==> donorEmail != "" && donorName != "" && amountText != "" && selected.Some?
                       && parseFloat(amountText).Some? && parseFloat(amountText).value > 0.0
    ensures donorEmail == "" || donorName == "" || amountText == "" || selected.None? ==> r == Err(Incomplete)
    ensures r.Ok? ==> r.value > 0.0 && Some(r.value) == parseFloat(amountText)
  {
    if donorEmail == "" || donorName == "" || amountText == "" || selected.None? then Err(Incomplete)
    else
      var amount := parseFloat(amountText);
      if amount.None? || amount.value <= 0.0 then Err(InvalidAmount) else Ok(amount.value)
  }

  /** The family row after a pledge of `amount`: the committed total grows
      by the amount and the status is `fully_adopted` exactly when nothing
      then remains, `partially_adopted` otherwise; it never goes back to
      `available`. */
  function Sponsored(f: Family, amount: real): (g: Family)
    ensures g.id == f.id && g.estimatedCost == f.estimatedCost && g.contactEmail == f.contactEmail
    ensures g.amountCommitted == f.amountCommitted + amount
    ensures amount > 0.0 ==> g.amountCommitted > f.amountCommitted
    ensures g.status == FullyAdopted <==> Remaining(g.amountCommitted, g.estimatedCost) == 0.0
    ensures g.status != Available
  {
    var newTotal := f.amountCommitted + amount;
    f.(amountCommitted := newTotal,
       status := if newTotal >= f.estimatedCost then FullyAdopted else PartiallyAdopted)
  }

  /** The shortfall the confirmation mails report: only for a family that
      is not fully adopted, and then it is positive, so the extra
      `estimated_cost - newTotal > 0` test of the donor mail and the
      `Math.max(0, …)` of the invitation never change what is shown. */
  function StillNeeded(g: Family): (r: Option<real>)
    ensures r.Some? <==> g.amountCommitted < g.estimatedCost
    ensures r.Some? ==> r.value > 0.0 && r.value == Remaining(g.amountCommitted, g.estimatedCost)
  {
    if g.amountCommitted >= g.estimatedCost then None else Some(g.estimatedCost - g.amountCommitted)
  }

  lemma {:induction false} StillNeededOnlyWhenPartial(f: Family, amount: real)
    ensures StillNeeded(Sponsored(f, amount)).Some? <==> Sponsored(f, amount).status == PartiallyAdopted
  {
  }

  function Sum(amounts: seq<real>): real
  {
    if amounts == [] then 0.0 else amounts[0] + Sum(amounts[1..])
  }

  /** The row after several pledges, in order. */
  function SponsoredAll(f: Family, amounts: seq<real>): Family
    decreases |amounts|
  {
    if amounts == [] then f else SponsoredAll(Sponsored(f, amounts[0]), amounts[1..])
  }

  /** Pledges add up: after any non-empty run of pledges the total is the
      old total plus their sum, the status is `fully_adopted` exactly when
      that covers the cost, and the family is no longer listed once it
      does. */
  lemma {:induction false} PledgesAddUp(f: Family, amounts: seq<real>)
    decreases |amounts|
    ensures SponsoredAll(f, amounts).amountCommitted == f.amountCommitted + Sum(amounts)
    ensures SponsoredAll(f, amounts).estimatedCost == f.estimatedCost
    ensures amounts != [] ==>
              (SponsoredAll(f, amounts).status == FullyAdopted <==> f.amountCommitted + Sum(amounts) >= f.estimatedCost)
    ensures amounts != [] ==>
              (Listable(SponsoredAll(f, amounts)) <==> f.amountCommitted + Sum(amounts) < f.estimatedCost)
  {
    if amounts != [] {
      var g := Sponsored(f, amounts[0]);
      PledgesAddUp(g, amounts[1..]);
    }
  }

  /** With positive pledges the committed total only grows. */
  lemma {:induction false} PledgesOnlyIncrease(f: Family, amounts: seq<real>)
    requires forall i :: 0 <= i < |amounts| ==> amounts[i] > 0.0
    decreases |amounts|
    ensures amounts != [] ==> SponsoredAll(f, amounts).amountCommitted > f.amountCommitted
    ensures amounts == [] ==> SponsoredAll(f, amounts) == f
  {
    if amounts != [] {
      PledgesOnlyIncrease(Sponsored(f, amounts[0]), amounts[1..]);
    }
  }

  // ----- invitations --------------------------------------------------------

  datatype SponsorshipKind = Partial | Split

  /** A friend entry that is sent an invitation: non-empty with an `@`. */
  predicate Invitable(e: string)
  {
    e != "" && '@' in e
  }

  /** The friends invited after a pledge: none for a partial sponsorship;
      for a split one every entry that is non-empty and holds an `@`, in
      list order. */
  function Invitees(kind: SponsorshipKind, friends: seq<string>): (r: seq<string>)
    ensures kind == Partial ==> r == []
    ensures IsSubsequence(r, friends)
    ensures forall e :: e in r ==> e != "" && '@' in e
    ensures kind == Split ==> forall i :: 0 <= i < |friends| && friends[i] != "" && '@' in friends[i] ==> friends[i] in r
    // an address entered twice is invited twice
    ensures kind == Split ==> forall e :: multiset(r)[e] == (if Invitable(e) then multiset(friends)[e] else 0)
  {
    if kind == Split && |friends| > 0 then Filter(friends, Invitable) else []
  }

  // ----- the sponsorship form -----------------------------------------------

  /** A `family_adoptions` row. */
  datatype Adoption = Adoption(familyId: string, donorName: string, donorEmail: string, amount: real)

  /** The alerts the handler shows. */
  datatype Alert = InvalidAmountAlert | AdoptionErrorAlert | UpdateErrorAlert | ThankYouAlert

  /** The entries of the sponsorship form, as one value. */
  datatype FormEntries = FormEntries(selected: Option<Family>, donorName: string, donorEmail: string,
                                     donationAmount: string, kind: SponsorshipKind,
                                     friendEmails: seq<string>, splitMessage: string)

  class SponsorForm {
    var selected: Option<Family>
    var donorName: string
    var donorEmail: string
    var donationAmount: string
    var isSubmitting: bool
    var kind: SponsorshipKind
    var friendEmails: seq<string>
    var splitMessage: string
    /** Rows the handler asked `family_adoptions` to insert, oldest first. */
    var adoptions: seq<Adoption>
    /** Family rows as written back by each update, oldest first. */
    var familyUpdates: seq<Family>
    /** Recipients of the mails sent, in order. */
    var mailed: seq<string>
    /** Alerts shown, oldest first. */
    var alerts: seq<Alert>

    /** The friend list always has an entry to type into. */
    predicate Valid()
      reads this
    {
      |friendEmails| >= 1
    }

    /** What the donor has entered or chosen. */
    function Entries(): FormEntries
      reads this
    {
      FormEntries(selected, donorName, donorEmail, donationAmount, kind, friendEmails, splitMessage)
    }

    /** The form's defaults, restored after a pledge and on cancel. */
    predicate Defaults()
      reads this
    {
      && selected.None? && donorName == "" && donorEmail == "" && donationAmount == ""
      && kind == Partial && friendEmails == [""] && splitMessage == ""
    }

    constructor ()
      ensures Valid() && Defaults() && !isSubmitting
      ensures adoptions == [] && familyUpdates == [] && mailed == [] && alerts == []
    {
      selected := None;
      donorName, donorEmail, donationAmount := "", "", "";
      isSubmitting := false;
      kind := Partial;
      friendEmails := [""];
      splitMessage := "";
      adoptions, familyUpdates, mailed, alerts := [], [], [], [];
    }

    /** Choosing a family: the amount field is pre-filled with what the
        family still needs, rendered by `render` (`Number.toString`), or
        left empty when nothing remains. */
    method Select(f: Family, render: real -> string)
      requires Valid()
      modifies this
      ensures Valid()
      ensures selected == Some(f)
      ensures donationAmount == (if Remaining(f.amountCommitted, f.estimatedCost) > 0.0
                                 then render(Remaining(f.amountCommitted, f.estimatedCost)) else "")
      ensures donorName == old(donorName) && donorEmail == old(donorEmail) && kind == old(kind)
      ensures friendEmails == old(friendEmails) && splitMessage == old(splitMessage)
      ensures isSubmitting == old(isSubmitting)
      ensures adoptions == old(adoptions) && familyUpdates == old(familyUpdates)
      ensures mailed == old(mailed) && alerts == old(alerts)
    {
      selected := Some(f);
      var remaining := Remaining(f.amountCommitted, f.estimatedCost);
      donationAmount := if remaining > 0.0 then render(remaining) else "";
    }

    /** The two radio buttons. */
    method ChooseKind(k: SponsorshipKind)
      requires Valid()
      modifies this
      ensures Valid() && kind == k
      ensures selected == old(selected) && donorName == old(donorName) && donorEmail == old(donorEmail)
      ensures donationAmount == old(donationAmount) && friendEmails == old(friendEmails)
      ensures splitMessage == old(splitMessage) && isSubmitting == old(isSubmitting)
      ensures adoptions == old(adoptions) && familyUpdates == old(familyUpdates)
      ensures mailed == old(mailed) && alerts == old(alerts)
    {
      kind := k;
    }

    /** Typing into friend entry `index`: a copy with that entry replaced. */
    method EditFriend(index: nat, value: string)
      requires Valid() && index < |friendEmails|
      modifies this
      ensures Valid()
      ensures |friendEmails| == |old(friendEmails)| && friendEmails[index] == value
      ensures forall j :: 0 <= j < |friendEmails| && j != index ==> friendEmails[j] == old(friendEmails)[j]
      ensures selected == old(selected) && donorName == old(donorName) && donorEmail == old(donorEmail)
      ensures donationAmount == old(donationAmount) && kind == old(kind)
      ensures splitMessage == old(splitMessage) && isSubmitting == old(isSubmitting)
      ensures adoptions == old(adoptions) && familyUpdates == old(familyUpdates)
      ensures mailed == old(mailed) && alerts == old(alerts)
    {
      var updated := friendEmails;
      updated := updated[index := value];
      friendEmails := updated;
    }

    /** The Remove button, shown only while there is more than one entry:
        entry `index` is dropped and the others keep their order. */
    method RemoveFriend(index: nat)
      requires Valid() && |friendEmails| > 1 && index < |friendEmails|
      modifies this
      ensures Valid()
      ensures |friendEmails| == |old(friendEmails)| - 1
      ensures forall j :: 0 <= j < index ==> friendEmails[j] == old(friendEmails)[j]
      ensures forall j :: index <= j < |friendEmails| ==> friendEmails[j] == old(friendEmails)[j + 1]
      ensures selected == old(selected) && donorName == old(donorName) && donorEmail == old(donorEmail)
      ensures donationAmount == old(donationAmount) && kind == old(kind)
      ensures splitMessage == old(splitMessage) && isSubmitting == old(isSubmitting)
      ensures adoptions == old(adoptions) && familyUpdates == old(familyUpdates)
      ensures mailed == old(mailed) && alerts == old(alerts)
    {
      friendEmails := friendEmails[..index] + friendEmails[index + 1..];
    }

    /** "+ Add Another Person": an empty entry at the end. */
    method AddFriend()
      requires Valid()
      modifies this
      ensures Valid()
      ensures friendEmails == old(friendEmails) + [""]
      ensures selected == old(selected) && donorName == old(donorName) && donorEmail == old(donorEmail)
      ensures donationAmount == old(donationAmount) && kind == old(kind)
      ensures splitMessage == old(splitMessage) && isSubmitting == old(isSubmitting)
      ensures adoptions == old(adoptions) && familyUpdates == old(familyUpdates)
      ensures mailed == old(mailed) && alerts == old(alerts)
    {
      friendEmails := friendEmails + [""];
    }

    /** Cancel: back to the defaults, nothing written or sent. */
    method Cancel()
      requires Valid()
      modifies this
      ensures Valid() && Defaults()
      ensures isSubmitting == old(isSubmitting)
      ensures adoptions == old(adoptions) && familyUpdates == old(familyUpdates)
      ensures mailed == old(mailed) && alerts == old(alerts)
    {
      selected := None;
      donorEmail, donorName, donationAmount := "", "", "";
      kind := Partial;
      friendEmails := [""];
      splitMessage := "";
    }

    /** The part of `handleAdoptFamily` after the checks, for a pledge of
        `amount` to `family`: insert the adoption row; if that succeeds
        write the family row back with its new total and status; if that
        succeeds too, mail the donor, the charity and the invited friends,
        in that order, show the thank-you alert and return the form to its
        defaults. `isSubmitting` is clear at the end on every path. */
    method Commit(family: Family, amount: real, adoptionFails: bool, updateFails: bool)
      requires Valid()
      modifies this
      ensures Valid() && !isSubmitting
      ensures adoptions == old(adoptions) + [Adoption(family.id, old(donorName), old(donorEmail), amount)]
      ensures adoptionFails ==>
                && familyUpdates == old(familyUpdates) && mailed == old(mailed)
                && alerts == old(alerts) + [AdoptionErrorAlert]
      ensures !adoptionFails ==> familyUpdates == old(familyUpdates) + [Sponsored(family, amount)]
      ensures !adoptionFails && updateFails ==>
                mailed == old(mailed) && alerts == old(alerts) + [UpdateErrorAlert]
      // after a failed write the entries stay as typed, for another try
      ensures adoptionFails || updateFails ==> Entries() == old(Entries())
      ensures !adoptionFails && !updateFails ==>
                && mailed == old(mailed) + [old(donorEmail), family.contactEmail] + Invitees(old(kind), old(friendEmails))
                && alerts == old(alerts) + [ThankYouAlert]
                && Defaults()
    {
      isSubmitting := true;
      adoptions := adoptions + [Adoption(family.id, donorName, donorEmail, amount)];
      if adoptionFails {
        alerts := alerts + [AdoptionErrorAlert];
        isSubmitting := false;
        return;
      }
      familyUpdates := familyUpdates + [Sponsored(family, amount)];
      if updateFails {
        alerts := alerts + [UpdateErrorAlert];
        isSubmitting := false;
        return;
      }
      mailed := mailed + [donorEmail, family.contactEmail] + Invitees(kind, friendEmails);
      alerts := alerts + [ThankYouAlert];
      // the same resets as the Cancel button, then submission ends
      Cancel();
      isSubmitting := false;
    }

    /** `handleAdoptFamily`: a pledge that fails its checks writes and
        sends nothing (an unparsable or non-positive amount shows an
        alert, a missing field nothing at all); an accepted one is
        committed with the parsed amount. `parseFloat` answers `None` for
        NaN. */
    method HandleAdoptFamily(parseFloat: string -> Option<real>, adoptionFails: bool, updateFails: bool)
      requires Valid()
      modifies this
      ensures Valid()
      ensures var check := CheckPledge(old(donorEmail), old(donorName), old(donationAmount), old(selected), parseFloat);
              check.Err? ==>
                && adoptions == old(adoptions) && familyUpdates == old(familyUpdates) && mailed == old(mailed)
                && selected == old(selected) && donorName == old(donorName) && donorEmail == old(donorEmail)
                && donationAmount == old(donationAmount) && kind == old(kind)
                && friendEmails == old(friendEmails) && splitMessage == old(splitMessage)
                && isSubmitting == old(isSubmitting)
                && alerts == old(alerts) + (if check.error == InvalidAmount then [InvalidAmountAlert] else [])
      ensures var check := CheckPledge(old(donorEmail), old(donorName), old(donationAmount), old(selected), parseFloat);
              check.Ok? ==>
                && !isSubmitting
                && adoptions == old(adoptions) + [Adoption(old(selected).value.id, old(donorName), old(donorEmail), check.value)]
                && (adoptionFails ==>
                      familyUpdates == old(familyUpdates) && mailed == old(mailed)
                      && alerts == old(alerts) + [AdoptionErrorAlert])
                && (!adoptionFails ==> familyUpdates == old(familyUpdates) + [Sponsored(old(selected).value, check.value)])
                && (!adoptionFails && updateFails ==> mailed == old(mailed) && alerts == old(alerts) + [UpdateErrorAlert])
                && (adoptionFails || updateFails ==> Entries() == old(Entries()))
                && (!adoptionFails && !updateFails ==>
                      && mailed == old(mailed) + [old(donorEmail), old(selected).value.contactEmail]
                                               + Invitees(old(kind), old(friendEmails))
                      && alerts == old(alerts) + [ThankYouAlert]
                      && Defaults())
    {
      var check := CheckPledge(donorEmail, donorName, donationAmount, selected, parseFloat);
      if check.Err? {
        if check.error == InvalidAmount {
          alerts := alerts + [InvalidAmountAlert];
        }
        return;
      }
      Commit(selected.value, check.value, adoptionFails, updateFails);
    }
  }
}
