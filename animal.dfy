/** The level-to-animal banding of the ChillAnimal widget (App.tsx:8-34). The drawing,
    its colours and sizes are view code and are not modelled. */
module Animals {

  /** The five calm animals, from least to most stressed (App.tsx:9-14). */
  datatype Animal = Penguin | Turtle | Owl | Koala | Bear

  /** Position of an animal in the stress order. */
  function Rank(a: Animal): nat {
    match a
    case Penguin => 0
    case Turtle => 1
    case Owl => 2
    case Koala => 3
    case Bear => 4
  }

  /** The animal shown for a stress level (App.tsx:16-31): bands of twenty whose upper
      edge is inclusive, 0-20 a penguin up to 81-100 a bear, with everything below the
      first band a penguin and everything above the last a bear. */
  function ChillAnimal(level: int): (a: Animal)
    ensures Rank(a) == if level <= 0 then 0 else if level > 100 then 4 else (level - 1) / 20
  {
    if level > 80 then Bear
    else if level > 60 then Koala
    else if level > 40 then Owl
    else if level > 20 then Turtle
    else Penguin
  }

  /** The banding is monotone: a higher level never shows a calmer animal. */
  lemma ChillAnimalMonotone(l1: int, l2: int)
    requires l1 <= l2
    ensures Rank(ChillAnimal(l1)) <= Rank(ChillAnimal(l2))
  {
  }

  /** The slow pulse animation is used exactly for the bear (App.tsx:34). */
  predicate Pulses(level: int) {
    level > 80
  }

  lemma PulsesIffBear(level: int)
    ensures Pulses(level) <==> ChillAnimal(level) == Bear
  {
  }
}
