/** The auto-numbering pass: in file order, every non-empty card whose id is
    a placeholder gets a fresh `YYMMDDHHmm` id, made unique within the batch,
    and the first `id: "<old>"` of the working text is rewritten to it. */
module AutoNumber {
  import opened Digits
  import opened DateId
  import opened TextReplace

  /** A card as the pass sees it: its id and whether its body is empty. */
  datatype Card = Card(id: string, isEmpty: bool)

  /** What the numbering loop carries from one card to the next: the working
      text, the cards with the ids assigned so far, and the previous card's id. */
  datatype PassState = PassState(contents: string, cards: seq<Card>, prevId: string)

  /** The bound on the conflict loop. */
  const MaxTries: nat := 1000

  /** A card gets a new id when its body is non-empty and its id is a placeholder. */
  predicate Eligible(c: Card) {
    !c.isEmpty && IsToAutoId(c.id)
  }

  /** The literal form an id takes in the document. */
  function IdPattern(id: string): string {
    "id: \"" + id + "\""
  }

  /** Some card of the batch currently holds `id`. */
  predicate HeldBy(cards: seq<Card>, id: string) {
    exists j :: 0 <= j < |cards| && cards[j].id == id
  }

  /** `k` one-minute steps from `s`. */
  function IncN(s: string, k: nat): string
    decreases k
  {
    if k == 0 then s else IncN(IncrementDateId(s), k - 1)
  }

  /** The conflict loop: step the candidate while some card holds it, for at
      most `tries` steps. */
  function Resolve(candidate: string, cards: seq<Card>, tries: nat): (r: string)
    ensures |candidate| >= 10 ==> |r| >= 10
    decreases tries
  {
    if tries == 0 then candidate
    else if HeldBy(cards, candidate) then Resolve(IncrementDateId(candidate), cards, tries - 1)
    else candidate
  }

  /** The first candidate for an eligible card: an empty id takes the stamp,
      a six-digit id continues from a ten-digit previous id, and anything
      else falls back to the stamp. */
  function Candidate(id: string, prevId: string, stamp: string): string {
    if id == [] then stamp
    else if IsTenDigits(prevId) then IncrementDateId(prevId)
    else stamp
  }

  /** One iteration of the numbering loop, on card `i`. */
  function Step(st: PassState, i: nat, stamp: string): (next: PassState)
    requires i < |st.cards|
    ensures |next.cards| == |st.cards|
    ensures next.prevId == next.cards[i].id
    ensures next.cards[i].isEmpty == st.cards[i].isEmpty
    ensures next.cards == st.cards[i := next.cards[i]]
    ensures !Eligible(st.cards[i]) ==> next.contents == st.contents && next.cards == st.cards
  {
    var card := st.cards[i];
    if Eligible(card) then
      var newId := Resolve(Candidate(card.id, st.prevId, stamp), st.cards, MaxTries);
      PassState(ReplaceFirst(st.contents, IdPattern(card.id), IdPattern(newId)),
                st.cards[i := card.(id := newId)],
                newId)
    else
      PassState(st.contents, st.cards, card.id)
  }

  /** The state after the first `n` cards. */
  function RunUpTo(contents0: string, cards0: seq<Card>, stamp: string, n: nat): (st: PassState)
    requires n <= |cards0|
    ensures |st.cards| == |cards0|
  {
    if n == 0 then PassState(contents0, cards0, "")
    else Step(RunUpTo(contents0, cards0, stamp, n - 1), n - 1, stamp)
  }

  /** The state after the whole batch. */
  function Run(contents0: string, cards0: seq<Card>, stamp: string): (st: PassState)
    ensures |st.cards| == |cards0|
  {
    RunUpTo(contents0, cards0, stamp, |cards0|)
  }

  /** The conflict loop as written: at most `MaxTries` steps, leaving early as
      soon as no card of the batch holds the candidate. */
  method ResolveConflicts(candidate: string, cards: seq<Card>) returns (newId: string)
    ensures newId == Resolve(candidate, cards, MaxTries)
  {
    newId := candidate;
    for k := 0 to MaxTries
      invariant Resolve(newId, cards, MaxTries - k) == Resolve(candidate, cards, MaxTries)
    {
      var conflict := HeldBy(cards, newId);
      if conflict {
        newId := IncrementDateId(newId);
      } else {
        break;
      }
    }
  }

  /** The numbering loop: rewrites `contents` one eligible card at a time and
      records each new id in the card sequence. */
  method RunAutoNumber(contents0: string, cards0: seq<Card>, stamp: string)
    returns (contents: string, cards: seq<Card>)
    ensures contents == Run(contents0, cards0, stamp).contents
    ensures cards == Run(contents0, cards0, stamp).cards
  {
    contents, cards := contents0, cards0;
    var prevId := "";
    for i := 0 to |cards0|
      invariant PassState(contents, cards, prevId) == RunUpTo(contents0, cards0, stamp, i)
    {
      var mustId := !cards[i].isEmpty && IsToAutoId(cards[i].id);
      if mustId {
        var newId;
        if cards[i].id == [] {
          newId := stamp;
        } else if IsTenDigits(prevId) {
          newId := IncrementDateId(prevId);
        } else {
          newId := stamp;
        }
        assert newId == Candidate(cards[i].id, prevId, stamp);
        newId := ResolveConflicts(newId, cards);
        contents := ReplaceFirst(contents, IdPattern(cards[i].id), IdPattern(newId));
        cards := cards[i := cards[i].(id := newId)];
      }
      prevId := cards[i].id;
    }
  }

  /** The whole pass for a given local time: the stamp is formatted once and
      shared by every card of the run. */
  method AutoNumberAt(contents0: string, cards0: seq<Card>,
                      year: int, month: nat, day: nat, hour: nat, minute: nat)
    returns (contents: string)
    requires 1 <= month <= 12 && 1 <= day <= 31 && hour <= 23 && minute <= 59
    ensures contents == Run(contents0, cards0, FormatStamp(year, month, day, hour, minute)).contents
  {
    var currentDate := FormatStamp(year, month, day, hour, minute);
    var cards;
    contents, cards := RunAutoNumber(contents0, cards0, currentDate);
  }
}
