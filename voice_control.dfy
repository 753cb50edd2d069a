/** The voice assistant's command classifier: the heard phrase is lowercased
    and checked against keyword rules in a fixed order, the first rule that
    matches decides the reply, and navigation rules open a page. Speech
    recognition and synthesis are not part of this model. */
module VoiceControl {
  import opened Common
  import opened Domain
  import opened Text

  datatype Intent =
    | Balance
    | StreakQuery
    | ShowGoals
    | Analytics
    | Home
    | Challenges
    | Achievements
    | Unknown

  /** The keyword condition of each rule, on its own. */
  predicate Matches(intent: Intent, command: string)
  {
    match intent
    case Balance =>
      Includes(command, "how much") || Includes(command, "total saved") || Includes(command, "balance")
    case StreakQuery => Includes(command, "streak")
    case ShowGoals => Includes(command, "show") && Includes(command, "goal")
    case Analytics => Includes(command, "analytics") || Includes(command, "stats")
    case Home => Includes(command, "home") || Includes(command, "dashboard")
    case Challenges => Includes(command, "challenge")
    case Achievements => Includes(command, "achievement") || Includes(command, "trophy")
    case Unknown => false
  }

  /** The position of each rule in the chain; the unknown reply comes last. */
  function Order(intent: Intent): nat
  {
    match intent
    case Balance => 0
    case StreakQuery => 1
    case ShowGoals => 2
    case Analytics => 3
    case Home => 4
    case Challenges => 5
    case Achievements => 6
    case Unknown => 7
  }

  /** The chain of `if` tests in `processCommand`. */
  function Classify(command: string): Intent
  {
    if Includes(command, "how much") || Includes(command, "total saved") || Includes(command, "balance") then Balance
    else if Includes(command, "streak") then StreakQuery
    else if Includes(command, "show") && Includes(command, "goal") then ShowGoals
    else if Includes(command, "analytics") || Includes(command, "stats") then Analytics
    else if Includes(command, "home") || Includes(command, "dashboard") then Home
    else if Includes(command, "challenge") then Challenges
    else if Includes(command, "achievement") || Includes(command, "trophy") then Achievements
    else Unknown
  }

  /** The first rule that matches wins: the chosen rule matches and no rule
      before it does; the unknown reply comes exactly when no rule matches. */
  lemma ClassifySpec(command: string)
    ensures Classify(command) != Unknown ==> Matches(Classify(command), command)
    ensures forall j :: Order(j) < Order(Classify(command)) ==> !Matches(j, command)
    ensures Classify(command) == Unknown <==> forall j :: !Matches(j, command)
  {
    var c := Classify(command);
    forall j | Order(j) < Order(c)
      ensures !Matches(j, command)
    {
      assert j != Unknown;
    }
    if c != Unknown {
      assert Matches(c, command);
    }
  }

  /** What the assistant says. */
  datatype Answer = Saved(total: int) | StreakDays(days: int) | Opening(page: Intent) | NotUnderstood

  /** A reply: the answer, the route it navigates to, and the delay in
      milliseconds after which the dialog closes. */
  datatype Reply = Reply(answer: Answer, route: Option<string>, closeAfter: Option<int>)

  /** The route each navigation rule opens. */
  function RouteOf(intent: Intent): Option<string>
  {
    match intent
    case ShowGoals => Some("/")
    case Analytics => Some("/analytics")
    case Home => Some("/")
    case Challenges => Some("/challenges")
    case Achievements => Some("/achievements")
    case _ => None
  }

  /** `processCommand(command)` on the lowercased transcript. */
  function Process(command: string, txs: seq<Transaction>, savingsStreak: int): Reply
  {
    match Classify(command)
    case Balance => Reply(Saved(TotalAmount(txs)), None, Some(3000))
    case StreakQuery => Reply(StreakDays(savingsStreak), None, Some(3000))
    case Unknown => Reply(NotUnderstood, None, None)
    case page => Reply(Opening(page), RouteOf(page), Some(1000))
  }

  /** `recognition.onresult`: the transcript is lowercased first. */
  function Heard(transcript: string, txs: seq<Transaction>, savingsStreak: int): Reply
  {
    Process(ToLower(transcript), txs, savingsStreak)
  }

  /** The balance reply carries the sum of all amounts and the streak reply
      the streak; a reply navigates exactly for the five navigation rules,
      to the page that rule names; an unmatched command neither navigates
      nor closes the dialog. */
  lemma ProcessSpec(command: string, txs: seq<Transaction>, savingsStreak: int)
    ensures var r := Process(command, txs, savingsStreak);
      var i := Classify(command);
      (i == Balance <==> r.answer == Saved(TotalAmount(txs)) && r.route.None?)
      && (i == StreakQuery ==> r.answer == StreakDays(savingsStreak) && r.route.None?)
      && (r.route.Some? <==> Order(i) in {2, 3, 4, 5, 6})
      && (r.route == Some("/") <==> i == ShowGoals || i == Home)
      && (r.route == Some("/analytics") <==> i == Analytics)
      && (r.route == Some("/challenges") <==> i == Challenges)
      && (r.route == Some("/achievements") <==> i == Achievements)
      && (r.closeAfter.None? <==> i == Unknown)
      && (i == Unknown ==> r.answer == NotUnderstood)
  {
  }

  lemma LowerCharTwice(c: char)
    ensures LowerChar(LowerChar(c)) == LowerChar(c)
  {
  }

  /** Lowercasing twice changes nothing more. */
  lemma ToLowerIdempotent(s: string)
    ensures ToLower(ToLower(s)) == ToLower(s)
  {
    var once := ToLower(s);
    forall i | 0 <= i < |s|
      ensures ToLower(once)[i] == once[i]
    {
      LowerCharTwice(s[i]);
    }
  }

  /** Matching ignores the case of the transcript: a phrase and its
      lowercase form get the same reply. */
  lemma HeardIgnoresCase(transcript: string, txs: seq<Transaction>, savingsStreak: int)
    ensures Heard(transcript, txs, savingsStreak) == Heard(ToLower(transcript), txs, savingsStreak)
  {
    ToLowerIdempotent(transcript);
  }

  /** A phrase with a balance keyword is answered with the balance even when
      it also names another rule's keyword. */
  lemma BalanceFirst(command: string, txs: seq<Transaction>, savingsStreak: int)
    requires OccursAt(command, "balance", 0)
    ensures Process(command, txs, savingsStreak).answer == Saved(TotalAmount(txs))
  {
    assert Includes(command, "balance");
  }
}
