/** The startup (sign-in) screen: the greeting chosen from the hour of the local
    clock, and the Sign In button's route. The hour is a parameter; the clock itself
    is outside the model. */
module Startup {

  /** An hour of the day as `Date.getHours` returns it. */
  type Hour = h: int | 0 <= h < 24

  const Morning: string := "Good Morning, User"
  const Afternoon: string := "Good Afternoon, User"
  const Evening: string := "Good Evening, User"

  /** Where Sign In sends the user. */
  const SignInRoute: string := "/desktop"

  /** `getGreeting`: morning before noon, afternoon before six, evening after. */
  function Greeting(hour: Hour): (g: string)
    ensures g == Morning || g == Afternoon || g == Evening
  {
    if hour < 12 then Morning
    else if hour < 18 then Afternoon
    else Evening
  }

  /** The three greetings are different strings. */
  lemma GreetingsDistinct()
    ensures Morning != Afternoon && Afternoon != Evening && Morning != Evening
  {
    assert Morning[5] != Afternoon[5] && Afternoon[5] != Evening[5] && Morning[5] != Evening[5];
  }

  /** Each hour gets exactly one greeting: morning exactly for hours 0-11, afternoon
      exactly for 12-17, evening exactly for 18-23. */
  lemma GreetingBands(hour: Hour)
    ensures Greeting(hour) == Morning <==> hour < 12
    ensures Greeting(hour) == Afternoon <==> 12 <= hour < 18
    ensures Greeting(hour) == Evening <==> 18 <= hour
  {
    GreetingsDistinct();
  }

  /** Going from one hour to the next, midnight included, the greeting changes exactly
      at 0, at 12 and at 18. */
  lemma GreetingChangesAtNoonAndSix(hour: Hour)
    ensures Greeting(hour) != Greeting((hour + 1) % 24) <==> (hour + 1) % 24 in {0, 12, 18}
  {
    GreetingsDistinct();
  }
}
