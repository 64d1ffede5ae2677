/** The home page of `app/page.tsx`: the auto-scrolling list of urgent
    needs, the success-story tiles and their accent colours, the claim
    handler's confirmation text and donor instructions, and the sort by
    distance with its zip-code fallback. The claim arithmetic, stepper and
    zip field are the same code as on the urgent-needs page and reuse its
    definitions. */
module HomePage {
  import opened Wrappers
  import opened Text
  import NeedsPage

  // ----- auto-scroll --------------------------------------------------------

  /** One tick of the auto-scroll timer: back to the top once the bottom is
      reached, otherwise one pixel further. */
  function NextScrollTop(top: int, clientHeight: int, scrollHeight: int): int
  {
    if top + clientHeight >= scrollHeight then 0 else top + 1
  }

  /** The scroll position after `n` ticks. */
  function ScrollAfter(top: int, clientHeight: int, scrollHeight: int, n: nat): int
  {
    if n == 0 then top
    else NextScrollTop(ScrollAfter(top, clientHeight, scrollHeight, n - 1), clientHeight, scrollHeight)
  }

  /** The scrolling list box: only its position changes. */
  class ScrollContainer {
    var scrollTop: int
    const clientHeight: int
    const scrollHeight: int

    /** The visible window lies within the content. */
    predicate Fits()
      reads this
    {
      0 <= scrollTop && scrollTop + clientHeight <= scrollHeight
    }

    constructor (clientHeight: nat, scrollHeight: nat)
      requires clientHeight <= scrollHeight
      ensures scrollTop == 0 && this.clientHeight == clientHeight && this.scrollHeight == scrollHeight
      ensures Fits()
    {
      scrollTop := 0;
      this.clientHeight := clientHeight;
      this.scrollHeight := scrollHeight;
    }

    /** The interval callback, updating `scrollTop` in place. */
    method Tick()
      modifies this
      ensures scrollTop == NextScrollTop(old(scrollTop), clientHeight, scrollHeight)
      ensures old(Fits()) ==> Fits()
    {
      if scrollTop + clientHeight >= scrollHeight {
        scrollTop := 0;
      } else {
        scrollTop := scrollTop + 1;
      }
    }
  }

  /** From the top, the list advances one pixel per tick until the bottom
      and is back at the top on the tick after: the scroll is periodic with
      period `scrollHeight - clientHeight + 1`. */
  lemma {:induction false} ScrollCycles(clientHeight: int, scrollHeight: int, k: nat)
    requires 0 <= clientHeight <= scrollHeight
    requires k <= scrollHeight - clientHeight
    ensures ScrollAfter(0, clientHeight, scrollHeight, k) == k
    ensures ScrollAfter(0, clientHeight, scrollHeight, scrollHeight - clientHeight + 1) == 0
  {
    ScrollClimbs(clientHeight, scrollHeight, k);
    ScrollClimbs(clientHeight, scrollHeight, scrollHeight - clientHeight);
  }

  lemma {:induction false} ScrollClimbs(clientHeight: int, scrollHeight: int, k: nat)
    requires 0 <= clientHeight <= scrollHeight
    requires k <= scrollHeight - clientHeight
    ensures ScrollAfter(0, clientHeight, scrollHeight, k) == k
  {
    if k > 0 {
      ScrollClimbs(clientHeight, scrollHeight, k - 1);
    }
  }

  // ----- story tiles --------------------------------------------------------

  const TileHeights: seq<string> :=
    ["h-[420px]", "h-[480px]", "h-[400px]", "h-[460px]", "h-[440px]", "h-[390px]", "h-[470px]", "h-[430px]"]

  /** The height class of the story at `index`. */
  function TileHeight(index: nat): (h: string)
    ensures h in TileHeights
  {
    TileHeights[index % 8]
  }

  /** Heights repeat every eight stories, and eight consecutive stories
      use every height once. */
  lemma {:induction false} TileHeightsCycle(index: nat)
    ensures TileHeight(index + 8) == TileHeight(index)
    ensures forall m :: 0 <= m < 8 ==> exists k :: index <= k < index + 8 && TileHeight(k) == TileHeights[m]
  {
    var q := index / 8;
    assert index + 8 == 8 * (q + 1) + index % 8;
    forall m | 0 <= m < 8 ensures exists k :: index <= k < index + 8 && TileHeight(k) == TileHeights[m] {
      var k := StoryWithHeight(index, m);
      assert TileHeight(k) == TileHeights[m];
    }
  }

  lemma {:induction false} StoryWithHeight(index: nat, m: nat) returns (k: nat)
    requires m < 8
    ensures index <= k < index + 8 && k % 8 == m
  {
    var q := index / 8;
    assert index == 8 * q + index % 8;
    k := if m >= index % 8 then 8 * q + m else 8 * (q + 1) + m;
  }

  const DefaultAccent: string := "from-[#8B8589] to-[#75727a]"

  /** `getAccentColor`: three named accents have their own gradient, every
      other value gets the grey default. */
  function AccentColor(accent: string): (gradient: string)
    ensures gradient == DefaultAccent <==> accent != "mint" && accent != "navy" && accent != "coral"
    ensures accent == "mint" ==> gradient == "from-[#ADEBB3] to-[#8dd99a]"
    ensures accent == "navy" ==> gradient == "from-[#000080] to-[#000066]"
    ensures accent == "coral" ==> gradient == "from-[#FF8559] to-[#ff6b3d]"
  {
    if accent == "mint" then "from-[#ADEBB3] to-[#8dd99a]"
    else if accent == "navy" then "from-[#000080] to-[#000066]"
    else if accent == "coral" then "from-[#FF8559] to-[#ff6b3d]"
    else DefaultAccent
  }

  // ----- claim --------------------------------------------------------------

  const FullyFulfilledText: string := "This need is now fully fulfilled!"
  const StillNeededSuffix: string := " more still needed."

  /** `fulfilledMsg`: the fulfilled sentence, or how many are still needed. */
  function ConfirmationText(quantity: int, donated: int): string
  {
    if quantity - donated <= 0 then FullyFulfilledText
    else NatToString(quantity - donated) + StillNeededSuffix
  }

  /** The confirmation reports the claim's own outcome: the fulfilled
      sentence exactly when the update marks the need claimed, and
      otherwise a number that reads back as the quantity still needed. */
  lemma {:induction false} ConfirmationMatchesClaim(quantity: int, donated: int, donorEmail: string, now: string)
    ensures ConfirmationText(quantity, donated) == FullyFulfilledText <==>
              NeedsPage.ClaimUpdate(quantity, donated, donorEmail, now).status.Some?
    ensures donated < quantity ==>
              ParseInt(ConfirmationText(quantity, donated)) == Some(quantity - donated)
              && ParseInt(ConfirmationText(quantity, donated))
                   == Some(NeedsPage.ClaimUpdate(quantity, donated, donorEmail, now).quantity)
  {
    if donated < quantity {
      ParseIntNatToString(quantity - donated, StillNeededSuffix);
      var text := NatToString(quantity - donated) + StillNeededSuffix;
      assert text[|text| - 1] == '.';
      assert text != FullyFulfilledText by {
        assert FullyFulfilledText[|FullyFulfilledText| - 1] == '!';
      }
    }
  }

  const DefaultInstructions: string :=
    "The charity will " + "contact you within " + "24 hours with " + "delivery instructions."

  /** `.replace(/\n/g, '<br>')`. */
  function NewlinesToBreaks(s: string): (r: string)
    ensures '\n' !in r
    ensures '\n' !in s ==> r == s
  {
    if s == [] then []
    else (if s[0] == '\n' then "<br>" else [s[0]]) + NewlinesToBreaks(s[1..])
  }

  /** The replacement works piece by piece ... */
  lemma {:induction false} NewlinesToBreaksConcat(a: string, b: string)
    ensures NewlinesToBreaks(a + b) == NewlinesToBreaks(a) + NewlinesToBreaks(b)
    decreases |a|
  {
    if a == [] {
      assert a + b == b;
    } else {
      assert (a + b)[1..] == a[1..] + b;
      NewlinesToBreaksConcat(a[1..], b);
    }
  }

  /** ... and character by character: a newline becomes `<br>`, every
      other character stays. */
  lemma {:induction false} NewlinesToBreaksChar(c: char)
    ensures NewlinesToBreaks([c]) == if c == '\n' then "<br>" else [c]
  {
    assert [c][1..] == [];
  }

  lemma {:induction false} DefaultInstructionsOnOneLine()
    ensures '\n' !in DefaultInstructions
  {
    assert '\n' !in "The charity will ";
    assert '\n' !in "contact you within ";
    assert '\n' !in "24 hours with ";
    assert '\n' !in "delivery instructions.";
  }

  /** The donor's next-step instructions: the charity's auto-response when
      it has one, else the default sentence, with line breaks as `<br>`. */
  function Instructions(autoResponse: Option<string>): (text: string)
    ensures '\n' !in text
    ensures autoResponse.None? || autoResponse.value == "" ==> text == DefaultInstructions
    ensures autoResponse.Some? && autoResponse.value != "" ==> text == NewlinesToBreaks(autoResponse.value)
    ensures autoResponse.Some? && '\n' !in autoResponse.value ==>
              text == (if autoResponse.value == "" then DefaultInstructions else autoResponse.value)
  {
    DefaultInstructionsOnOneLine();
    NewlinesToBreaks(if autoResponse.Some? && autoResponse.value != "" then autoResponse.value else DefaultInstructions)
  }

  /** `handleClaimItem` on the home page: without an email, a name and a
      selected need nothing happens; otherwise the update of the
      urgent-needs page is written and, unless the write fails, the
      confirmation for the claimed quantity is shown. */
  method HandleClaimItem(selected: Option<NeedsPage.Need>, donated: int, donorEmail: string, donorName: string,
                         now: string, updateFails: bool)
    returns (update: Option<NeedsPage.NeedUpdate>, confirmation: Option<string>)
    ensures update.Some? <==> donorEmail != "" && donorName != "" && selected.Some?
    ensures update.Some? ==> update.value == NeedsPage.ClaimUpdate(selected.value.quantity, donated, donorEmail, now)
    ensures confirmation.Some? <==> update.Some? && !updateFails
    ensures confirmation.Some? ==> confirmation.value == ConfirmationText(selected.value.quantity, donated)
    ensures confirmation.Some? ==>
              (confirmation.value == FullyFulfilledText <==> update.value.status == Some("claimed"))
  {
    update, confirmation := None, None;
    if donorEmail == "" || donorName == "" || selected.None? {
      return;
    }
    var quantity := selected.value.quantity;
    var data := NeedsPage.BuildUpdate(quantity, donated, donorEmail, now);
    update := Some(data);
    if updateFails {
      return;
    }
    ConfirmationMatchesClaim(quantity, donated, donorEmail, now);
    confirmation := Some(ConfirmationText(quantity, donated));
  }

  // ----- sort by distance ---------------------------------------------------

  /** The zip code used for a need: its stored one when present, else the
      one the lookup of its charity by name answers. */
  function CharityZip(need: NeedsPage.Need, lookupByName: string -> Option<string>): Option<string>
  {
    if need.charityZip.Some? && need.charityZip.value != "" then need.charityZip
    else lookupByName(need.charity)
  }

  /** 999 when neither the stored zip nor the lookup gives one. */
  function HomeDistance(need: NeedsPage.Need, userZip: string, lookupByName: string -> Option<string>,
                        distance: (string, string) -> real): real
  {
    var zip := CharityZip(need, lookupByName);
    if zip.Some? && zip.value != "" then distance(userZip, zip.value) else 999.0
  }

  function HomeWithDistances(shown: seq<NeedsPage.Need>, userZip: string, lookupByName: string -> Option<string>,
                             distance: (string, string) -> real): (rs: seq<NeedsPage.Ranked>)
    ensures |rs| == |shown|
    ensures forall i :: 0 <= i < |shown| ==>
              rs[i] == NeedsPage.Ranked(shown[i], HomeDistance(shown[i], userZip, lookupByName, distance))
  {
    if shown == [] then []
    else [NeedsPage.Ranked(shown[0], HomeDistance(shown[0], userZip, lookupByName, distance))]
         + HomeWithDistances(shown[1..], userZip, lookupByName, distance)
  }

  /** `handleSortByDistance` on the home page: refused unless the zip code
      has five characters; otherwise nearest first, a permutation of the
      shown needs with their distances. */
  function HandleSortByDistance(userZip: string, shown: seq<NeedsPage.Need>, lookupByName: string -> Option<string>,
                                distance: (string, string) -> real): (r: Option<seq<NeedsPage.Ranked>>)
    ensures r.None? <==> |userZip| != 5
    ensures r.Some? ==> NeedsPage.SortedByDistance(r.value)
    ensures r.Some? ==> multiset(r.value) == multiset(HomeWithDistances(shown, userZip, lookupByName, distance))
  {
    if |userZip| != 5 then None
    else Some(NeedsPage.SortByDistance(HomeWithDistances(shown, userZip, lookupByName, distance)))
  }

  /** The lookup is consulted only for needs without a stored zip code, so
      the home page ranks exactly as the urgent-needs page does whenever
      every need has one, and the fallback can only replace a 999. */
  lemma {:induction false} FallbackOnlyWhenZipMissing(need: NeedsPage.Need, userZip: string,
                                                     lookupByName: string -> Option<string>,
                                                     distance: (string, string) -> real)
    ensures need.charityZip.Some? && need.charityZip.value != "" ==>
              HomeDistance(need, userZip, lookupByName, distance) == NeedsPage.DistanceOf(need, userZip, distance)
    ensures HomeDistance(need, userZip, lookupByName, distance) != NeedsPage.DistanceOf(need, userZip, distance) ==>
              NeedsPage.DistanceOf(need, userZip, distance) == 999.0
  {
  }
}
