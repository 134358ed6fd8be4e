/** What the numbering pass guarantees about a whole batch. */
module AutoNumberProperties {
  import opened Digits
  import opened DateId
  import opened TextReplace
  import opened AutoNumber

  // ---------------------------------------------------------------------------
  // The conflict loop

  /** `IncN(c, k)` is where a loop of at most `tries` steps stops: every
      earlier successor is held, and unless the bound is reached this one is
      free. */
  ghost predicate FirstFree(c: string, cards: seq<Card>, tries: nat, k: nat) {
    && k <= tries
    && (forall j :: 0 <= j < k ==> HeldBy(cards, IncN(c, j)))
    && (k < tries ==> !HeldBy(cards, IncN(c, k)))
  }

  /** The number of steps the conflict loop takes from `c`. */
  function Steps(c: string, cards: seq<Card>, tries: nat): (k: nat)
    ensures k <= tries
    decreases tries
  {
    if tries == 0 || !HeldBy(cards, c) then 0 else 1 + Steps(IncrementDateId(c), cards, tries - 1)
  }

  /** The conflict loop returns the candidate stepped `Steps` times. */
  lemma {:induction false} ResolveTakesSteps(c: string, cards: seq<Card>, tries: nat)
    ensures Resolve(c, cards, tries) == IncN(c, Steps(c, cards, tries))
    decreases tries
  {
    if tries > 0 && HeldBy(cards, c) {
      ResolveTakesSteps(IncrementDateId(c), cards, tries - 1);
    }
  }

  /** Every successor the loop steps over is held by some card. */
  lemma {:induction false} StepsOverHeld(c: string, cards: seq<Card>, tries: nat, j: nat)
    requires j < Steps(c, cards, tries)
    ensures HeldBy(cards, IncN(c, j))
    decreases j
  {
    if j > 0 {
      StepsOverHeld(IncrementDateId(c), cards, tries - 1, j - 1);
    }
  }

  /** Unless the bound is reached, the loop stops at a successor no card holds. */
  lemma {:induction false} StopsAtFree(c: string, cards: seq<Card>, tries: nat)
    requires Steps(c, cards, tries) < tries
    ensures !HeldBy(cards, IncN(c, Steps(c, cards, tries)))
    decreases tries
  {
    if HeldBy(cards, c) {
      StopsAtFree(IncrementDateId(c), cards, tries - 1);
    }
  }

  /** Hence the loop yields the first of the candidate's successors that no
      card holds, looking at most `tries` steps ahead; when every one of them
      is held, it gives up with the last. */
  lemma ResolveFirstFree(c: string, cards: seq<Card>, tries: nat)
    ensures exists k :: FirstFree(c, cards, tries, k) && Resolve(c, cards, tries) == IncN(c, k)
  {
    var k := Steps(c, cards, tries);
    ResolveTakesSteps(c, cards, tries);
    forall j | 0 <= j < k ensures HeldBy(cards, IncN(c, j)) {
      StepsOverHeld(c, cards, tries, j);
    }
    if k < tries {
      StopsAtFree(c, cards, tries);
    }
    assert FirstFree(c, cards, tries, k);
  }

  /** A candidate the loop returns still held by some card means the bound
      was used up: every value from the candidate to `tries` steps past it
      is taken. */
  lemma {:induction false} ResolveHeldOnlyWhenExhausted(c: string, cards: seq<Card>, tries: nat)
    requires HeldBy(cards, Resolve(c, cards, tries))
    ensures Resolve(c, cards, tries) == IncN(c, tries)
    ensures forall j :: 0 <= j <= tries ==> HeldBy(cards, IncN(c, j))
    decreases tries
  {
    if tries > 0 && HeldBy(cards, c) {
      var c' := IncrementDateId(c);
      assert Resolve(c, cards, tries) == Resolve(c', cards, tries - 1);
      ResolveHeldOnlyWhenExhausted(c', cards, tries - 1);
      forall j | 0 <= j <= tries ensures HeldBy(cards, IncN(c, j)) {
        if j > 0 {
          assert IncN(c, j) == IncN(c', j - 1);
        }
      }
    }
  }

  // ---------------------------------------------------------------------------
  // How the run evolves

  /** Card `i` is only touched by iteration `i`: ids of earlier cards are
      final, later cards are still as extracted. */
  lemma {:induction false} RunFrames(contents0: string, cards0: seq<Card>, stamp: string, n: nat)
    requires n <= |cards0|
    ensures forall k :: n <= k < |cards0| ==> RunUpTo(contents0, cards0, stamp, n).cards[k] == cards0[k]
    ensures forall k :: 0 <= k < n ==>
      Run(contents0, cards0, stamp).cards[k] == RunUpTo(contents0, cards0, stamp, n).cards[k]
  {
    SuffixUntouched(contents0, cards0, stamp, n);
    PrefixFrozen(contents0, cards0, stamp, n, |cards0|);
  }

  lemma {:induction false} SuffixUntouched(contents0: string, cards0: seq<Card>, stamp: string, n: nat)
    requires n <= |cards0|
    ensures forall k :: n <= k < |cards0| ==> RunUpTo(contents0, cards0, stamp, n).cards[k] == cards0[k]
  {
    if n > 0 {
      SuffixUntouched(contents0, cards0, stamp, n - 1);
    }
  }

  lemma PrefixFrozen(contents0: string, cards0: seq<Card>, stamp: string, n: nat, m: nat)
    requires n <= m <= |cards0|
    ensures forall k :: 0 <= k < n ==>
      RunUpTo(contents0, cards0, stamp, m).cards[k] == RunUpTo(contents0, cards0, stamp, n).cards[k]
  {
    forall k | 0 <= k < n
      ensures RunUpTo(contents0, cards0, stamp, m).cards[k] == RunUpTo(contents0, cards0, stamp, n).cards[k]
    {
      CardFrozen(contents0, cards0, stamp, n, m, k);
    }
  }

  /** Card `k` keeps the id it has after iteration `k` through every later one. */
  lemma {:induction false} CardFrozen(contents0: string, cards0: seq<Card>, stamp: string, n: nat, m: nat, k: nat)
    requires k < n <= m <= |cards0|
    ensures RunUpTo(contents0, cards0, stamp, m).cards[k] == RunUpTo(contents0, cards0, stamp, n).cards[k]
    decreases m
  {
    if m > n {
      CardFrozen(contents0, cards0, stamp, n, m - 1, k);
      var st := RunUpTo(contents0, cards0, stamp, m - 1);
      var next := Step(st, m - 1, stamp);
      assert RunUpTo(contents0, cards0, stamp, m) == next;
      assert next.cards[k] == st.cards[k];
    }
  }

  /** Iteration `k` sees card `k` exactly as it was extracted. */
  lemma StepSeesOriginalCard(contents0: string, cards0: seq<Card>, stamp: string, k: nat)
    requires k < |cards0|
    ensures RunUpTo(contents0, cards0, stamp, k).cards[k] == cards0[k]
  {
    SuffixUntouched(contents0, cards0, stamp, k);
  }

  /** After every card, eligible or not, the previous id is that card's
      current id, which is also its final one. */
  lemma PrevIdThreads(contents0: string, cards0: seq<Card>, stamp: string, n: nat)
    requires 0 < n <= |cards0|
    ensures RunUpTo(contents0, cards0, stamp, n).prevId == RunUpTo(contents0, cards0, stamp, n).cards[n - 1].id
    ensures RunUpTo(contents0, cards0, stamp, n).prevId == Run(contents0, cards0, stamp).cards[n - 1].id
  {
    RunFrames(contents0, cards0, stamp, n);
  }

  /** A card that is not eligible keeps its id, and its iteration leaves the
      text alone. */
  lemma NotEligibleUntouched(contents0: string, cards0: seq<Card>, stamp: string, k: nat)
    requires k < |cards0| && !Eligible(cards0[k])
    ensures Run(contents0, cards0, stamp).cards[k] == cards0[k]
    ensures RunUpTo(contents0, cards0, stamp, k + 1).contents == RunUpTo(contents0, cards0, stamp, k).contents
  {
    StepSeesOriginalCard(contents0, cards0, stamp, k);
    RunFrames(contents0, cards0, stamp, k + 1);
  }

  /** A batch without an eligible card leaves text and cards as they were. */
  lemma {:induction false} NoEligibleNoChange(contents0: string, cards0: seq<Card>, stamp: string, n: nat)
    requires n <= |cards0|
    requires forall k :: 0 <= k < |cards0| ==> !Eligible(cards0[k])
    ensures RunUpTo(contents0, cards0, stamp, n).contents == contents0
    ensures RunUpTo(contents0, cards0, stamp, n).cards == cards0
  {
    if n > 0 {
      NoEligibleNoChange(contents0, cards0, stamp, n - 1);
    }
  }

  /** The previous card's final id, or "" before the first card. */
  function PrevFinalId(contents0: string, cards0: seq<Card>, stamp: string, k: nat): string
    requires k < |cards0|
  {
    if k == 0 then "" else Run(contents0, cards0, stamp).cards[k - 1].id
  }

  /** What iteration `k` does to an eligible card: its candidate is the stamp
      for an empty id and, for a six-digit id, one minute past the previous
      card's id when that is ten digits (the stamp otherwise); the conflict
      loop runs against the batch's ids as they are at that point; the first
      `id: "<old>"` of the text is rewritten to the new id. */
  lemma EligibleAssigned(contents0: string, cards0: seq<Card>, stamp: string, k: nat)
    requires k < |cards0| && Eligible(cards0[k])
    ensures var before := RunUpTo(contents0, cards0, stamp, k);
      var prev := PrevFinalId(contents0, cards0, stamp, k);
      var newId := Run(contents0, cards0, stamp).cards[k].id;
      && (cards0[k].id == [] ==> newId == Resolve(stamp, before.cards, MaxTries))
      && (cards0[k].id != [] && IsTenDigits(prev) ==>
            newId == Resolve(IncrementDateId(prev), before.cards, MaxTries))
      && (cards0[k].id != [] && !IsTenDigits(prev) ==> newId == Resolve(stamp, before.cards, MaxTries))
      && RunUpTo(contents0, cards0, stamp, k + 1).contents
           == ReplaceFirst(before.contents, IdPattern(cards0[k].id), IdPattern(newId))
      && Run(contents0, cards0, stamp).cards[k].isEmpty == cards0[k].isEmpty
  {
    StepSeesOriginalCard(contents0, cards0, stamp, k);
    RunFrames(contents0, cards0, stamp, k + 1);
    if k > 0 {
      PrevIdThreads(contents0, cards0, stamp, k);
    }
  }

  // ---------------------------------------------------------------------------
  // Uniqueness

  /** The conflict loop for card `j` settled on an id that some card still
      held at that point. That happens only once every try is used up (see
      `ResolveHeldOnlyWhenExhausted`), but a loop that uses up every try may
      still end on a free id. */
  ghost predicate LeftHeld(contents0: string, cards0: seq<Card>, stamp: string, j: nat)
    requires j < |cards0|
  {
    Eligible(cards0[j])
    && HeldBy(RunUpTo(contents0, cards0, stamp, j).cards, Run(contents0, cards0, stamp).cards[j].id)
  }

  /** An id whose conflict loop did not settle on a held id differs from the
      final id of every earlier card and of every card that is not eligible. */
  lemma AssignedIdIsFree(contents0: string, cards0: seq<Card>, stamp: string, j: nat, k: nat)
    requires j < |cards0| && k < |cards0| && j != k
    requires Eligible(cards0[j]) && !LeftHeld(contents0, cards0, stamp, j)
    requires k < j || !Eligible(cards0[k])
    ensures Run(contents0, cards0, stamp).cards[k].id != Run(contents0, cards0, stamp).cards[j].id
  {
    var before := RunUpTo(contents0, cards0, stamp, j);
    RunFrames(contents0, cards0, stamp, j);
    if k > j {
      NotEligibleUntouched(contents0, cards0, stamp, k);
    }
    assert Run(contents0, cards0, stamp).cards[k] == before.cards[k];
  }

  /** If no conflict loop of the run settled on a held id, the ids the run
      assigns are pairwise distinct. */
  lemma AssignedIdsDistinct(contents0: string, cards0: seq<Card>, stamp: string)
    requires forall j :: 0 <= j < |cards0| ==> !LeftHeld(contents0, cards0, stamp, j)
    ensures forall i, j :: 0 <= i < j < |cards0| && Eligible(cards0[i]) && Eligible(cards0[j]) ==>
      Run(contents0, cards0, stamp).cards[i].id != Run(contents0, cards0, stamp).cards[j].id
  {
    forall i, j | 0 <= i < j < |cards0| && Eligible(cards0[i]) && Eligible(cards0[j])
      ensures Run(contents0, cards0, stamp).cards[i].id != Run(contents0, cards0, stamp).cards[j].id
    {
      AssignedIdIsFree(contents0, cards0, stamp, j, i);
    }
  }

  // ---------------------------------------------------------------------------
  // No placeholder survives

  /** With a stamp of at least ten characters (every stamp the formatter
      makes), every assigned id is at least ten characters, so it is no
      longer a placeholder. */
  lemma AssignedIsNotPlaceholder(contents0: string, cards0: seq<Card>, stamp: string, k: nat)
    requires |stamp| >= 10 && k < |cards0| && Eligible(cards0[k])
    ensures |Run(contents0, cards0, stamp).cards[k].id| >= 10
    ensures !IsToAutoId(Run(contents0, cards0, stamp).cards[k].id)
  {
    EligibleAssigned(contents0, cards0, stamp, k);
  }

  /** After a run no card is eligible any more... */
  lemma NothingLeftToNumber(contents0: string, cards0: seq<Card>, stamp: string)
    requires |stamp| >= 10
    ensures forall k :: 0 <= k < |cards0| ==> !Eligible(Run(contents0, cards0, stamp).cards[k])
  {
    forall k | 0 <= k < |cards0| ensures !Eligible(Run(contents0, cards0, stamp).cards[k]) {
      if Eligible(cards0[k]) {
        AssignedIsNotPlaceholder(contents0, cards0, stamp, k);
      } else {
        NotEligibleUntouched(contents0, cards0, stamp, k);
      }
    }
  }

  /** ... so a second run over the rewritten text, given the card sequence
      the first run leaves in memory, changes nothing, whatever its stamp.
      Cards extracted afresh from the rewritten text can differ from that
      sequence when a rewrite hit another card's field; see
      `AutoNumberScenarios.EmptyCardInFrontRerun`. */
  lemma SecondRunChangesNothing(contents0: string, cards0: seq<Card>, stamp: string, stamp2: string)
    requires |stamp| >= 10
    ensures var once := Run(contents0, cards0, stamp);
      Run(once.contents, once.cards, stamp2).contents == once.contents
      && Run(once.contents, once.cards, stamp2).cards == once.cards
  {
    var once := Run(contents0, cards0, stamp);
    NothingLeftToNumber(contents0, cards0, stamp);
    NoEligibleNoChange(once.contents, once.cards, stamp2, |once.cards|);
  }
}
