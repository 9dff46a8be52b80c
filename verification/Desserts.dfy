/**
 Six chefs and a wholesaler: each chef lacks two of four ingredients and waits for both at once; the
 wholesaler delivers two at a time and waits for a dessert in return. One step per semaphore operation
 or guarded access.
 */
module Desserts {

  const MILK: bv8 := 2
  const FLOUR: bv8 := 4
  const WALNUTS: bv8 := 8
  const SUGAR: bv8 := 16
  const EMPTY: bv8 := 17
  const CHEF_NUMBER := 6
  const INGREDIENT_NUMBER := 4

  type ChefIndex = i: nat | i < CHEF_NUMBER

  /** The mask of the pair chef i lacks. */
  function GetMask(i: nat): bv8
    requires i < CHEF_NUMBER
  {
    [MILK | FLOUR, MILK | WALNUTS, MILK | SUGAR, FLOUR | WALNUTS, FLOUR | SUGAR, WALNUTS | SUGAR][i]
  }

  /** The mask of the r-th ingredient: 2 shifted left r times. */
  function Ingredient(r: nat): bv8 {
    if r == 0 then 2 else Ingredient(r - 1) << 1
  }

  predicate MaskHas(mask: bv8, ingredient: bv8) { mask & ingredient != 0 }

  /** The semaphores of chef i's pair, lower one first. */
  function First(i: nat): nat { if i < 3 then 0 else if i < 5 then 1 else 2 }

  function Second(i: nat): nat { if i == 0 then 1 else if i == 1 || i == 3 then 2 else 3 }

  predicate Uses(i: nat, r: nat) { r == First(i) || r == Second(i) }

  /** A line of the supply file: two letters. */
  datatype Line = Line(a: char, b: char)

  /** The letters of the ingredients, in the order of their semaphores. */
  const LETTERS := "MFWS"

  /** A letter's ingredient, or 0 for any other letter, which the program refuses. */
  function LetterMask(letter: char): bv8 {
    match letter
    case 'M' => MILK
    case 'F' => FLOUR
    case 'W' => WALNUTS
    case 'S' => SUGAR
    case _ => 0
  }

  function LineMask(line: Line): bv8 { LetterMask(line.a) | LetterMask(line.b) }

  /** Two different letters of the four. */
  predicate ValidLine(line: Line) {
    line.a in LETTERS && line.b in LETTERS && line.a != line.b
  }

  /** Which is what the assertions on a line demand: letters of two different ingredients. */
  lemma ValidMeans(line: Line)
    ensures ValidLine(line) <==>
      LetterMask(line.a) != 0 && LetterMask(line.b) != 0 && LetterMask(line.a) != LetterMask(line.b)
  {
  }

  /** At least one line, since the last post repeats the previous one, and only valid lines. */
  predicate ValidSupply(supply: seq<Line>) {
    |supply| > 0 && forall k :: 0 <= k < |supply| ==> ValidLine(supply[k])
  }

  /** The chef whose pair the line holds. */
  function Target(line: Line): (i: nat)
    requires ValidLine(line)
    ensures i < CHEF_NUMBER && GetMask(i) == LineMask(line)
  {
    var mask := LineMask(line);
    if mask == GetMask(0) then 0 else if mask == GetMask(1) then 1 else if mask == GetMask(2) then 2
    else if mask == GetMask(3) then 3 else if mask == GetMask(4) then 4 else 5
  }

  // ---------------------------------------------------------------- in letters

  /** The two letters each chef waits for. */
  const LACKS: seq<string> := ["MF", "MW", "MS", "FW", "FS", "WS"]

  /** The line names exactly what chef i lacks. */
  predicate IsFor(line: Line, i: nat)
    requires i < CHEF_NUMBER
  {
    (line.a == LACKS[i][0] && line.b == LACKS[i][1]) || (line.a == LACKS[i][1] && line.b == LACKS[i][0])
  }

  /** A valid line is for one chef, the one whose letters it has. */
  lemma TargetInLetters(line: Line, i: nat)
    requires ValidLine(line) && i < CHEF_NUMBER
    ensures Target(line) == i <==> IsFor(line, i)
  {
  }

  /** And is posted on the semaphores of its letters, and stored as their bits. */
  lemma PostedInLetters(line: Line, r: nat)
    requires ValidLine(line) && r < INGREDIENT_NUMBER
    ensures Uses(Target(line), r) <==> LETTERS[r] == line.a || LETTERS[r] == line.b
    ensures MaskHas(LineMask(line), [2, 4, 8, 16][r]) <==> LETTERS[r] == line.a || LETTERS[r] == line.b
  {
  }

  /** Which chef each line is for. */
  function Targets(supply: seq<Line>): (r: seq<nat>)
    requires forall k :: 0 <= k < |supply| ==> ValidLine(supply[k])
    ensures |r| == |supply| && forall k :: 0 <= k < |r| ==> r[k] == Target(supply[k])
  {
    seq(|supply|, k requires 0 <= k < |supply| => Target(supply[k]))
  }

  /** The chefs of a supply are those whose letters its lines have. */
  lemma TargetsInLetters(supply: seq<Line>)
    requires ValidSupply(supply)
    ensures |Targets(supply)| == |supply|
    ensures forall k :: 0 <= k < |supply| ==> Targets(supply)[k] < CHEF_NUMBER && IsFor(supply[k], Targets(supply)[k])
  {
    forall k | 0 <= k < |supply| ensures Targets(supply)[k] < CHEF_NUMBER && IsFor(supply[k], Targets(supply)[k]) {
      TargetInLetters(supply[k], Target(supply[k]));
    }
  }

  /** The indices below n of the ingredients of a mask, in order. */
  function Held(mask: bv8, n: nat): seq<nat> {
    if n == 0 then []
    else if MaskHas(mask, Ingredient(n - 1)) then Held(mask, n - 1) + [n - 1] else Held(mask, n - 1)
  }

  lemma {:induction false} HeldSplits(mask: bv8)
    ensures |Held(mask, 0)| <= |Held(mask, 1)| <= |Held(mask, 2)| <= |Held(mask, 3)| <= |Held(mask, 4)|
  {
  }

  /** A chef's mask holds the ingredients of its two semaphores, and no other. */
  lemma PairOfMask(i: nat)
    requires i < CHEF_NUMBER
    ensures Held(GetMask(i), INGREDIENT_NUMBER) == [First(i), Second(i)]
    ensures forall r :: 0 <= r < INGREDIENT_NUMBER ==> (MaskHas(GetMask(i), Ingredient(r)) <==> Uses(i, r))
  {
    var mask := GetMask(i);
    assert Ingredient(0) == MILK && Ingredient(1) == FLOUR && Ingredient(2) == WALNUTS && Ingredient(3) == SUGAR;
    assert Held(mask, 1) == if MaskHas(mask, MILK) then [0] else [];
    assert Held(mask, 2) == Held(mask, 1) + if MaskHas(mask, FLOUR) then [1] else [];
    assert Held(mask, 3) == Held(mask, 2) + if MaskHas(mask, WALNUTS) then [2] else [];
    assert Held(mask, 4) == Held(mask, 3) + if MaskHas(mask, SUGAR) then [3] else [];
  }

  /** Collects the indices of the ingredients of a mask that holds exactly two. */
  method SemOfIngredients(mask: bv8) returns (index: array<nat>)
    requires |Held(mask, INGREDIENT_NUMBER)| == 2
    ensures fresh(index) && index[..] == Held(mask, INGREDIENT_NUMBER)
  {
    hide Ingredient, MaskHas;
    index := new nat[2];
    HeldSplits(mask);
    var j := 0;
    for i := 0 to INGREDIENT_NUMBER
      invariant j <= 2 && index.Length == 2 && index[..j] == Held(mask, i)
    {
      assert |Held(mask, i + 1)| <= 2;
      if MaskHas(mask, Ingredient(i)) {
        index[j] := i;
        j := j + 1;
      }
    }
  }
}
