/**
  What kind of creature a card is, decided from three capability flags that
  come from the class hierarchy (`instanceof Duck`, `instanceof Dog`,
  `instanceof Trasher`), checked in a fixed order.
 */
module Classify {
  import opened Cards

  const DuckDogName: string := "Утка-Собака"
  const DuckName: string := "Утка"
  const DogName: string := "Собака"
  const BruteName: string := "громила"
  const CreatureName: string := "Существо"

  datatype Caps = Caps(duck: bool, dog: bool, trasher: bool)

  /** The capability flags of a card constructed as `v`. */
  function CapsOf(v: Variant): (c: Caps)
    ensures c.duck <==> v == Duck
    ensures c.dog <==> v == Dog || v == Trasher
    ensures c.trasher <==> v == Trasher
  {
    Caps(InstanceOf(v, Duck), InstanceOf(v, Dog), InstanceOf(v, Trasher))
  }

  /** The type line of a creature. Each of the five names is chosen by exactly
      one combination of the earlier checks failing and its own check passing. */
  function CreatureDescription(c: Caps): (r: string)
    ensures r == DuckDogName <==> c.duck && c.dog
    ensures r == DuckName <==> c.duck && !c.dog
    ensures r == DogName <==> c.dog && !c.duck
    ensures r == BruteName <==> c.trasher && !c.duck && !c.dog
    ensures r == CreatureName <==> !c.duck && !c.dog && !c.trasher
  {
    if c.duck && c.dog then DuckDogName
    else if c.duck then DuckName
    else if c.dog then DogName
    else if c.trasher then BruteName
    else CreatureName
  }

  /** Being a Trasher implies being a Dog, so the dog check always wins over
      the trasher check: every Trasher is described as a dog. */
  lemma TrasherIsDescribedAsDog(v: Variant)
    requires InstanceOf(v, Trasher)
    ensures InstanceOf(v, Dog)
    ensures CreatureDescription(CapsOf(v)) == DogName
  {
  }

  /** No class of the game reaches the duck-dog or the brute branch. */
  lemma UnreachableNames(v: Variant)
    ensures CreatureDescription(CapsOf(v)) != DuckDogName
    ensures CreatureDescription(CapsOf(v)) != BruteName
  {
  }

  /** The type line of each class of the game. */
  lemma NamesOfVariants(v: Variant)
    ensures CreatureDescription(CapsOf(v)) == DuckName <==> v == Duck
    ensures CreatureDescription(CapsOf(v)) == DogName <==> v == Dog || v == Trasher
    ensures CreatureDescription(CapsOf(v)) == CreatureName <==> v in {Gatling, Rogue, Lad}
  {
  }
}
