/** The weight of an enemy and the category `EnemyWeight.Start` derives from it. */
module EnemyWeight {

  /** The weight an enemy has unless configured otherwise. */
  const DefaultWeight: real := 50.0

  datatype Category = Light | Medium | Heavy {
    /** The string `Start` stores in `weightCategory`. */
    function Name(): string {
      match this
      case Light => "Light"
      case Medium => "Medium"
      case Heavy => "Heavy"
    }

    /** Position of the category on the scale Light < Medium < Heavy. */
    function Rank(): nat {
      match this
      case Light => 0
      case Medium => 1
      case Heavy => 2
    }
  }

  /** The category `Start` assigns: below 45 is Light, below 65 Medium, otherwise Heavy. */
  function Categorize(weight: real): (c: Category)
    ensures c == Light <==> weight < 45.0
    ensures c == Medium <==> 45.0 <= weight < 65.0
    ensures c == Heavy <==> 65.0 <= weight
  {
    if weight < 45.0 then Light
    else if weight < 65.0 then Medium
    else Heavy
  }

  /** A heavier enemy never falls in a lighter category. */
  lemma CategorizeMonotone(w1: real, w2: real)
    requires w1 <= w2
    ensures Categorize(w1).Rank() <= Categorize(w2).Rank()
  {
  }

  /** The three category names are distinct, so the stored string identifies the category. */
  lemma NamesDistinct(c1: Category, c2: Category)
    ensures c1.Name() == c2.Name() <==> c1 == c2
  {
    if c1 != c2 {
      match c1
      case Light => assert c1.Name()[0] == 'L';
      case Medium => assert c1.Name()[0] == 'M';
      case Heavy => assert c1.Name()[0] == 'H';
    }
  }

  /** An enemy left at the default weight is Medium. */
  lemma DefaultIsMedium()
    ensures Categorize(DefaultWeight) == Medium
    ensures Categorize(DefaultWeight).Name() == "Medium"
  {
  }
}
