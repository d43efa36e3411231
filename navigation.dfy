/**
 * The image cursor: the next and previous keys and the index clamp of
 * `_save_current_and_proceed` (app.py:426-455).
 */
module Navigation {
  datatype Direction = Forward | Backward

  /** What a navigation key does: nothing without images, a message at either end, or a move. */
  datatype Move = NoImages | AtBoundary | MovedTo(index: nat)

  /** `max(0, min(i, count - 1))` */
  function Clamp(i: int, count: nat): (r: nat)
    ensures count > 0 ==> r < count
    ensures 0 <= i < count ==> r == i
    ensures count > 0 && i >= count ==> r == count - 1
    ensures i < 0 || count == 0 ==> r == 0
  {
    var upper := if i < count - 1 then i else count - 1;
    if upper < 0 then 0 else upper
  }

  /** `next_image` and `prev_image`: where a key press moves the cursor over `count` images. */
  function Step(count: nat, index: int, dir: Direction): (m: Move)
    ensures m == NoImages <==> count == 0
    ensures count > 0 && dir == Forward ==> (m.MovedTo? <==> index < count - 1)
    ensures count > 0 && dir == Backward ==> (m.MovedTo? <==> index > 0)
    ensures m.MovedTo? ==> m.index < count
  {
    if count == 0 then NoImages
    else
      match dir
      case Forward => if index < count - 1 then MovedTo(Clamp(index + 1, count)) else AtBoundary
      case Backward => if index > 0 then MovedTo(Clamp(index - 1, count)) else AtBoundary
  }

  /** From a valid position the keys move exactly one image: the clamp never changes the target. */
  lemma StepIsAdjacent(count: nat, index: nat, dir: Direction)
    requires index < count
    ensures Step(count, index, dir).MovedTo? ==>
      Step(count, index, dir).index == (if dir == Forward then index + 1 else index - 1)
  {
  }

  /** A forward move is undone by a backward move, and the other way round. */
  lemma StepBack(count: nat, index: nat, dir: Direction)
    requires index < count && Step(count, index, dir).MovedTo?
    ensures Step(count, Step(count, index, dir).index, if dir == Forward then Backward else Forward) == MovedTo(index)
  {
  }

  /** The cursor after `k` presses of one key. */
  function Walk(count: nat, index: nat, dir: Direction, k: nat): nat
    decreases k
  {
    if k == 0 then index
    else
      match Step(count, index, dir)
      case MovedTo(j) => Walk(count, j, dir, k - 1)
      case _ => index
  }

  /** `k` presses of the next key from a valid position stop at the last image. */
  lemma {:induction false} WalkForward(count: nat, index: nat, k: nat)
    requires index < count
    ensures Walk(count, index, Forward, k) == if index + k < count then index + k else count - 1
    decreases k
  {
    if k > 0 && index < count - 1 {
      WalkForward(count, index + 1, k - 1);
    }
  }

  /** `k` presses of the previous key stop at the first image. */
  lemma {:induction false} WalkBackward(count: nat, index: nat, k: nat)
    requires index < count
    ensures Walk(count, index, Backward, k) == if index >= k then index - k else 0
    decreases k
  {
    if k > 0 && index > 0 {
      WalkBackward(count, index - 1, k - 1);
    }
  }
}
