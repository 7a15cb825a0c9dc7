/** The mock token page (app/token/page.tsx): submitting the form draws a
    token number and a waiting time at random and switches the status panel
    from its placeholder to the token's details. */
module TokenPage {
  import opened Strings

  /** `Math.floor(random * 100) + 1` for a draw `random` in [0, 1). */
  function TokenDraw(random: real): (n: int)
    requires 0.0 <= random < 1.0
    ensures 1 <= n <= 100
  {
    FloorBounds(random * 100.0, 100);
    (random * 100.0).Floor + 1
  }

  /** `Math.floor(random * 30) + 5` for a draw `random` in [0, 1). */
  function WaitDraw(random: real): (n: int)
    requires 0.0 <= random < 1.0
    ensures 5 <= n <= 34
  {
    FloorBounds(random * 30.0, 30);
    (random * 30.0).Floor + 5
  }

  lemma FloorBounds(x: real, k: int)
    requires 0.0 <= x < k as real
    ensures 0 <= x.Floor < k
  {
  }

  /** `A-<n>` */
  function TokenLabel(n: nat): (s: string)
    ensures |s| >= 3 && s[..2] == "A-" && s[2..] == NatToString(n)
  {
    "A-" + NatToString(n)
  }

  /** `<n> minutes` */
  function WaitLabel(n: nat): (s: string)
    ensures s == NatToString(n) + " minutes"
  {
    NatToString(n) + " minutes"
  }

  /** Different token numbers are shown differently. */
  lemma TokenLabelInjective(m: nat, n: nat)
    requires TokenLabel(m) == TokenLabel(n)
    ensures m == n
  {
    assert TokenLabel(m)[2..] == TokenLabel(n)[2..];
    NatToStringInjective(m, n);
  }

  /** The constants of the status panel. */
  const Clinic: string := "City General Hospital"
  const CurrentToken: string := "A-43"
  const QueuePosition: string := "4th in line"
  const Placeholder: string := "Generate a token using the form on the left to see your status here."

  /** What the status panel shows. */
  datatype Panel =
    | Prompt(text: string)
    | Details(tokenNumber: string, clinic: string, currentToken: string, waitTime: string, queuePosition: string)

  class Page {
    var tokenGenerated: bool
    var tokenNumber: string
    var waitTime: string

    constructor()
      ensures !tokenGenerated && tokenNumber == "" && waitTime == ""
    {
      tokenGenerated := false;
      tokenNumber := "";
      waitTime := "";
    }

    /** The panel: the placeholder until a token exists, then the token and
        waiting time beside the fixed clinic, current token and position. */
    function Status(): (p: Panel)
      reads this
      ensures !tokenGenerated ==> p == Prompt(Placeholder)
      ensures tokenGenerated ==> p == Details(tokenNumber, Clinic, CurrentToken, waitTime, QueuePosition)
    {
      if tokenGenerated then Details(tokenNumber, Clinic, CurrentToken, waitTime, QueuePosition)
      else Prompt(Placeholder)
    }

    /** `handleGenerateToken`, given the two draws of `Math.random()`. */
    method GenerateToken(random1: real, random2: real)
      requires 0.0 <= random1 < 1.0 && 0.0 <= random2 < 1.0
      modifies this
      ensures tokenGenerated
      ensures tokenNumber == TokenLabel(TokenDraw(random1))
      ensures waitTime == WaitLabel(WaitDraw(random2))
      ensures exists n :: 1 <= n <= 100 && tokenNumber == TokenLabel(n)
      ensures exists n :: 5 <= n <= 34 && waitTime == WaitLabel(n)
    {
      var token := TokenDraw(random1);
      var wait := WaitDraw(random2);
      tokenNumber := TokenLabel(token);
      waitTime := WaitLabel(wait);
      tokenGenerated := true;
    }
  }
}
