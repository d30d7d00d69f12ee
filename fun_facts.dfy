/**
 * The loading-screen facts of lib/fun-facts.ts and the rotation that
 * picks one by index.
 */
module FunFacts {
  import opened Wrappers
  import Js

  /** The fact list, in its source order. */
  const FUN_FACTS: seq<string> := [
    "Did you know? The first blog was created in 1994, making blogs almost 30 years old!",
    "Fact: Studies show that readers spend an average of 36 seconds on a blog post before deciding to stay or leave.",
    "Did you know? Long-form blog posts (over 1,500 words) tend to get 69% more shares than shorter articles.",
    "Fact: The word 'blog' is a shortened form of 'weblog,' coined in 1997.",
    "Did you know? Readers are 80% more likely to return to a blog with a consistent posting schedule.",
    "Did you know? Honey never spoils. Archaeologists have found pots of honey in Egyptian tombs that are over 3,000 years old and still edible!",
    "Fact: A group of flamingos is called a 'flamboyance.'",
    "Did you know? Octopuses have three hearts \U{2013} two pump blood to the gills, and one pumps it to the rest of the body.",
    "Fact: The shortest war in history lasted only 38 minutes, between Britain and Zanzibar in 1896.",
    "Did you know? Bananas are berries, but strawberries aren't technically berries!",
    "Fact: A single bolt of lightning contains enough energy to toast 100,000 slices of bread.",
    "Did you know? Penguins have knees, but you can't see them because they're hidden inside their fluffy bodies.",
    "Fact: Cleopatra lived closer to the invention of the internet than to the building of the Great Pyramid.",
    "Did you know? Wombats produce cube-shaped poop that doesn't roll away!",
    "Fact: The smell of coffee can improve your focus and memory.",
    "Did you know? The first email was sent in 1971, before the internet existed as we know it today.",
    "Fact: Over 500 million tweets are sent every single day.",
    "Did you know? The @ symbol is called different things around the world \U{2013} 'monkey's tail' in some countries!",
    "Fact: It would take 2 million years to watch all the content on YouTube if it was released in one day.",
    "Did you know? A giraffe's tongue can be up to 20 inches long!",
    "Fact: Cats can rotate their ears independently up to 180 degrees.",
    "Did you know? A group of crows is called a 'murder.'",
    "Fact: Sharks are older than dinosaurs by about 200 million years.",
    "Did you know? You can't sneeze with your eyes open (unless you've had eye surgery).",
    "Fact: A cockroach can live for a week without its head!",
    "Did you know? The Eiffel Tower can grow up to 15 cm taller during hot weather due to thermal expansion.",
    "Fact: Your nose can remember 50,000 different smells.",
    "Did you know? Sloths only defecate once a week.",
    "Fact: A group of unicorns is called a 'blessing.'",
    "Did you know? The first AI chatbot, ELIZA, was created in 1966 and could fool people into thinking they were talking to a therapist!",
    "Fact: Modern AI models can generate human-like text by predicting the most likely next word based on patterns in billions of documents.",
    "Did you know? A day on Venus is longer than its year!",
    "Fact: Peanuts aren't actually nuts \U{2013} they're legumes, like peas and beans.",
    "Did you know? The British Royal Family doesn't have a surname; they're just called 'The Royal Family.'",
    "Fact: An alligator can survive for up to 2 years without eating.",
    "Did you know? Pearls dissolve in vinegar!",
    "Fact: The fingerprints of koalas are so similar to human fingerprints that they've been confused at crime scenes!",
    "Did you know? A 'jiffy' is an actual unit of time equal to one trillionth of a second.",
    "Fact: Butterflies taste with their feet.",
    "Did you know? Russia has an anti-emoji law!",
    "Fact: The Great Wall of China isn't visible from space without magnification."
  ]

  /**
   * `getRotatingFunFact(index)`: `funFacts[index % funFacts.length]` with
   * JavaScript's remainder, so a negative index that is not a multiple of
   * the length reads past the front of the array and gives `undefined`.
   */
  function GetRotatingFunFact(index: int): (r: Option<string>)
    ensures index >= 0 ==> r.Some? && r.value in FUN_FACTS
  {
    var k := Js.Rem(index, |FUN_FACTS|);
    if k >= 0 then Some(FUN_FACTS[k]) else None
  }

  /** The list has 41 facts, so there is always one to show. */
  lemma FactsAreThere()
    ensures |FUN_FACTS| == 41
  {
  }

  /** For indices within the list the fact at that position is shown. */
  lemma FirstRoundInOrder(i: int)
    requires 0 <= i < |FUN_FACTS|
    ensures GetRotatingFunFact(i) == Some(FUN_FACTS[i])
  {
    assert Js.Rem(i, |FUN_FACTS|) == i % |FUN_FACTS| == i;
  }

  /** Counting on by the list length shows the same fact again. */
  lemma RotationIsPeriodic(i: int)
    requires i >= 0
    ensures GetRotatingFunFact(i + |FUN_FACTS|) == GetRotatingFunFact(i)
  {
    var n := |FUN_FACTS|;
    assert (i + n) % n == i % n;
  }

  /** A negative index off a multiple of the length shows nothing. */
  lemma NegativeIndexShowsNothing(i: int)
    requires i < 0 && Js.Rem(i, |FUN_FACTS|) != 0
    ensures GetRotatingFunFact(i).None?
  {
  }
}
