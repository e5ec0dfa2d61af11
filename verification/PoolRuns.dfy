/** What holds after every run of a pool: no call forgotten, no secret in clear, no message out of order. */
module PoolRuns {
  import opened Common
  import opened Text
  import opened Values
  import opened Secrets
  import opened HostCalls
  import opened Inbox
  import opened PoolModel
  import C = Crypto
  import F = Fragments
  import M = Messages

  // ---- Ids and mishaps ----

  predicate Increasing(sent: seq<Sent>, next: nat) {
    && next <= U64_MAX
    && (forall i :: 0 <= i < |sent| ==> sent[i].id < next)
    && (forall i, j :: 0 <= i < j < |sent| ==> sent[i].id < sent[j].id)
  }

  /** The `n`-th message a pool tries to send goes out: an id is left for it, and the transport accepts it. */
  predicate Goes(o: Outside, first: nat, n: nat) {
    first + n < U64_MAX && o.transport(n)
  }

  /** How many of the messages tried did not go out. */
  function Refused(o: Outside, first: nat, tries: nat): nat {
    if tries == 0 then 0 else Refused(o, first, tries - 1) + if Goes(o, first, tries - 1) then 0 else 1
  }

  /** How many key generations failed. */
  function Ungenerated(o: Outside, generated: nat): nat {
    if generated == 0 then 0
    else Ungenerated(o, generated - 1) + if o.generate(generated - 1).Some? then 0 else 1
  }

  /** What went wrong outside the pool. */
  function Mishaps(o: Outside, first: nat, s: State): nat {
    Refused(o, first, s.tries) + Ungenerated(o, s.generated)
  }

  predicate Ids(o: Outside, first: nat, s: State) {
    && first <= U64_MAX && s.nextId == Min(first + s.tries, U64_MAX)
    && Increasing(s.sent, s.nextId) && |s.sent| + Refused(o, first, s.tries) == s.tries
  }

  // ---- What the wire shows ----

  /** The host responses among the messages sent. */
  function RepliesIn(sent: seq<Sent>): seq<Reply> {
    if sent == [] then []
    else
      var s := sent[|sent| - 1];
      RepliesIn(sent[..|sent| - 1]) + if IsReply(s.messageType) then [Reply(s.messageType, s.pid, s.body)] else []
  }

  function ReplyAll(answers: seq<Answer>): seq<Reply> {
    if answers == [] then [] else ReplyAll(answers[..|answers| - 1]) + [ReplyOf(answers[|answers| - 1])]
  }

  lemma RepliesSnoc(sent: seq<Sent>, s: Sent)
    ensures RepliesIn(sent + [s])
         == RepliesIn(sent) + if IsReply(s.messageType) then [Reply(s.messageType, s.pid, s.body)] else []
  {
    assert (sent + [s])[..|sent|] == sent;
  }

  lemma ReplyAllSnoc(answers: seq<Answer>, a: Answer)
    ensures ReplyAll(answers + [a]) == ReplyAll(answers) + [ReplyOf(a)]
  {
    hide ReplyOf;
    assert (answers + [a])[..|answers|] == answers;
  }

  // ---- What the deeds amount to ----

  function AnswersIn(deeds: seq<Deed>): seq<Answer> {
    if deeds == [] then []
    else
      var d := deeds[|deeds| - 1];
      AnswersIn(deeds[..|deeds| - 1]) + if d.Sends? then [d.answer] else []
  }

  function SettledIn(deeds: seq<Deed>): multiset<Debt> {
    if deeds == [] then multiset{}
    else
      var d := deeds[|deeds| - 1];
      SettledIn(deeds[..|deeds| - 1]) + if d.Sends? then multiset{DebtOf(d.answer)} else multiset{}
  }

  function LostIn(deeds: seq<Deed>): multiset<Debt> {
    if deeds == [] then multiset{}
    else
      var d := deeds[|deeds| - 1];
      LostIn(deeds[..|deeds| - 1]) + if d.Loses? then multiset{d.debt} else multiset{}
  }

  /** The key messages dealt with. */
  function HeardIn(deeds: seq<Deed>): seq<M.Message> {
    if deeds == [] then []
    else
      var d := deeds[|deeds| - 1];
      HeardIn(deeds[..|deeds| - 1]) + if d.Hears? || d.Grants? || d.Declines? then [d.m] else []
  }

  function GrantedIn(deeds: seq<Deed>): seq<M.Message> {
    if deeds == [] then []
    else
      var d := deeds[|deeds| - 1];
      GrantedIn(deeds[..|deeds| - 1]) + if d.Grants? then [d.m] else []
  }

  /** The pair whose reply is awaited after these deeds. */
  function PairAfter(deeds: seq<Deed>): Option<ClientKey> {
    if deeds == [] then None
    else
      match deeds[|deeds| - 1]
      case Starts(pair) => Some(pair)
      case Gives(_) => None
      case Hears(_) => None
      case _ => PairAfter(deeds[..|deeds| - 1])
  }

  /** The key after a reply: the one it holds for the awaited pair, if any, else the one before. */
  function Unwrapped(o: Outside, m: M.Message, pair: Option<ClientKey>, before: Option<C.Cipher>): Option<C.Cipher> {
    if pair.None? then before
    else
      var key := SessionKeyOf(o.parse, o.unwrap, m, pair.value);
      if key.Some? then key else before
  }

  /** The key held after these deeds: the last one given, or unwrapped from the reply to an exchange. */
  function KeyAfter(o: Outside, deeds: seq<Deed>): Option<C.Cipher> {
    if deeds == [] then None
    else
      var front := deeds[..|deeds| - 1];
      match deeds[|deeds| - 1]
      case Gives(key) => Some(key)
      case Hears(m) => Unwrapped(o, m, PairAfter(front), KeyAfter(o, front))
      case _ => KeyAfter(o, front)
  }

  /** Replies to an exchange that hold no usable key. */
  function UnusableIn(o: Outside, deeds: seq<Deed>): nat {
    if deeds == [] then 0
    else UnusableIn(o, deeds[..|deeds| - 1]) + Unusable(o, deeds[..|deeds| - 1], deeds[|deeds| - 1])
  }

  function Unusable(o: Outside, before: seq<Deed>, d: Deed): nat {
    if d.Hears? && PairAfter(before).Some? && SessionKeyOf(o.parse, o.unwrap, d.m, PairAfter(before).value).None?
    then 1 else 0
  }

  /**
   * A deed done when it may be: a value goes out under the key held at that moment, and if it has a secret there is
   * one; a request is granted with an exchange under way, and an exchange starts when there is none.
   */
  ghost predicate Timely(o: Outside, before: seq<Deed>, d: Deed) {
    match d
    case Sends(a) =>
      && IsReply(a.call.responseType)
      && (a.Answered? ==> a.key == KeyAfter(o, before) && (ContainsSecret(a.plain) ==> a.key.Some?))
    case Starts(_) => PairAfter(before).None?
    case Grants(_) => PairAfter(before).Some?
    case Declines(_) => PairAfter(before).None?
    case _ => true
  }

  ghost predicate AllTimely(o: Outside, deeds: seq<Deed>) {
    forall i :: 0 <= i < |deeds| ==> Timely(o, deeds[..i], deeds[i])
  }

  lemma DeedSnoc(o: Outside, deeds: seq<Deed>, d: Deed)
    ensures AnswersIn(deeds + [d]) == AnswersIn(deeds) + if d.Sends? then [d.answer] else []
    ensures SettledIn(deeds + [d]) == SettledIn(deeds) + if d.Sends? then multiset{DebtOf(d.answer)} else multiset{}
    ensures LostIn(deeds + [d]) == LostIn(deeds) + if d.Loses? then multiset{d.debt} else multiset{}
    ensures HeardIn(deeds + [d]) == HeardIn(deeds) + if d.Hears? || d.Grants? || d.Declines? then [d.m] else []
    ensures GrantedIn(deeds + [d]) == GrantedIn(deeds) + if d.Grants? then [d.m] else []
    ensures UnusableIn(o, deeds + [d]) == UnusableIn(o, deeds) + Unusable(o, deeds, d)
  {
    hide DebtOf, Unusable;
    assert (deeds + [d])[..|deeds|] == deeds;
  }

  lemma KeySnoc(o: Outside, deeds: seq<Deed>, d: Deed)
    ensures PairAfter(deeds + [d]) ==
      if d.Starts? then Some(d.pair) else if d.Gives? || d.Hears? then None else PairAfter(deeds)
    ensures KeyAfter(o, deeds + [d]) ==
      if d.Gives? then Some(d.key)
      else if d.Hears? then Unwrapped(o, d.m, PairAfter(deeds), KeyAfter(o, deeds)) else KeyAfter(o, deeds)
  {
    hide Unwrapped;
    assert (deeds + [d])[..|deeds|] == deeds;
  }

  lemma TimelySnoc(o: Outside, deeds: seq<Deed>, d: Deed)
    requires AllTimely(o, deeds) && Timely(o, deeds, d)
    ensures AllTimely(o, deeds + [d])
  {
    hide Timely;
    forall i | 0 <= i < |deeds + [d]| ensures Timely(o, (deeds + [d])[..i], (deeds + [d])[i]) {
      if i < |deeds| {
        assert (deeds + [d])[..i] == deeds[..i];
      } else {
        assert (deeds + [d])[..i] == deeds;
      }
    }
  }

  // ---- The books of a pool ----

  function ParkedDebts(parked: seq<Parked>): multiset<Debt> {
    if parked == [] then multiset{}
    else multiset{Debt(parked[0].call, Gave(parked[0].value))} + ParkedDebts(parked[1..])
  }

  lemma {:induction false} ParkedSnoc(parked: seq<Parked>, p: Parked)
    ensures ParkedDebts(parked + [p]) == ParkedDebts(parked) + multiset{Debt(p.call, Gave(p.value))}
  {
    if parked == [] {
      assert [p][1..] == [];
      assert parked + [p] == [p];
    } else {
      assert (parked + [p])[1..] == parked[1..] + [p];
      ParkedSnoc(parked[1..], p);
    }
  }

  predicate AllSecret(parked: seq<Parked>) {
    forall i :: 0 <= i < |parked| ==> ContainsSecret(parked[i].value) && IsReply(parked[i].call.responseType)
  }

  /**
   * What a pool owes and has heard: `owed` is every debt so far, `hand` those being dealt with right now, `heard`
   * and `granted` the key messages dealt with and the requests granted.
   */
  datatype Account = Account(owed: multiset<Debt>, hand: multiset<Debt>, heard: seq<M.Message>, granted: seq<M.Message>)

  /** Every debt is settled, parked, lost or in hand; and no more were lost than things went wrong outside. */
  predicate Balanced(o: Outside, first: nat, s: State, a: Account) {
    && a.owed == SettledIn(s.deeds) + ParkedDebts(s.parked) + LostIn(s.deeds) + a.hand
    && |LostIn(s.deeds)| <= Mishaps(o, first, s)
  }

  /** The key and the pair are what the deeds make of them, and every deed was timely. */
  ghost predicate Keyed(o: Outside, s: State) {
    s.key == KeyAfter(o, s.deeds) && s.pair == PairAfter(s.deeds) && AllTimely(o, s.deeds)
  }

  ghost predicate Books(o: Outside, first: nat, s: State, a: Account) {
    && Ids(o, first, s) && RepliesIn(s.sent) == ReplyAll(AnswersIn(s.deeds))
    && Keyed(o, s) && AllSecret(s.parked) && Balanced(o, first, s, a)
    && HeardIn(s.deeds) == a.heard && GrantedIn(s.deeds) == a.granted
  }

  /** A parked answer waits for a key that is there or on its way. */
  predicate Waits(s: State) {
    s.parked != [] ==> s.key.Some? || s.pair.Some?
  }

  /** There is a mishap to account for one more loss. */
  predicate MayLose(o: Outside, first: nat, s: State) {
    |LostIn(s.deeds)| < Mishaps(o, first, s)
  }

  /** A message more was tried: an id was spent, and if it did not go out there is a mishap more. */
  lemma AttemptKeeps(o: Outside, first: nat, s: State, t: M.MessageType, pid: Guid, body: Value)
    requires Ids(o, first, s)
    ensures var (s', r) := Attempt(o, s, t, pid, body);
      && Ids(o, first, s') && s' == s.(nextId := s'.nextId, tries := s.tries + 1, sent := s'.sent)
      && Mishaps(o, first, s') == Mishaps(o, first, s) + (if r.Ok? then 0 else 1)
      && (if r.Ok? then |s'.sent| == |s.sent| + 1 && s'.sent == s.sent + [Sent(s'.sent[|s.sent|].id, t, pid, body)]
          else s'.sent == s.sent)
  {
  }

  lemma SentReply(sent: seq<Sent>, s: Sent)
    ensures !IsReply(s.messageType) ==> RepliesIn(sent + [s]) == RepliesIn(sent)
  {
    RepliesSnoc(sent, s);
    NothingAdded(RepliesIn(sent));
  }

  /** A message that is no host response changes no account. */
  lemma AttemptKeepsBooks(o: Outside, first: nat, s: State, a: Account, t: M.MessageType, pid: Guid, body: Value)
    requires Books(o, first, s, a) && !IsReply(t)
    ensures var (s', r) := Attempt(o, s, t, pid, body); Books(o, first, s', a) && (r.Err? ==> MayLose(o, first, s'))
  {
    hide Ids, Attempt, RepliesIn, ReplyAll, AnswersIn, Keyed, AllSecret, Mishaps;
    AttemptKeeps(o, first, s, t, pid, body);
    var (s', r) := Attempt(o, s, t, pid, body);
    if r.Ok? {
      SentReply(s.sent, s'.sent[|s.sent|]);
    }
    KeyedElsewhere(o, s, s');
  }

  lemma KeyedElsewhere(o: Outside, s: State, s': State)
    requires s'.key == s.key && s'.pair == s.pair && s'.deeds == s.deeds
    ensures Keyed(o, s') == Keyed(o, s)
  {
    hide KeyAfter, PairAfter, AllTimely;
  }

  /** An answer that may go out now. */
  ghost predicate MayAnswer(s: State, a: Answer) {
    && IsReply(a.call.responseType)
    && (a.Answered? ==> a.key == s.key && (ContainsSecret(a.plain) ==> a.key.Some?))
  }

  lemma KeyedSnoc(o: Outside, s: State, d: Deed, s': State)
    requires Keyed(o, s) && Timely(o, s.deeds, d) && s'.deeds == s.deeds + [d]
    requires s'.pair == if d.Starts? then Some(d.pair) else if d.Gives? || d.Hears? then None else s.pair
    requires s'.key ==
      if d.Gives? then Some(d.key) else if d.Hears? then Unwrapped(o, d.m, s.pair, s.key) else s.key
    ensures Keyed(o, s')
  {
    hide KeyAfter, PairAfter, AllTimely, Timely, Unwrapped;
    KeySnoc(o, s.deeds, d);
    TimelySnoc(o, s.deeds, d);
  }

  lemma AnswerIsTimely(o: Outside, s: State, a: Answer)
    requires Keyed(o, s) && MayAnswer(s, a)
    ensures Timely(o, s.deeds, Sends(a))
  {
    hide KeyAfter, AllTimely, ContainsSecret;
  }

  /** An answer in hand goes out, and its debt is settled; or there is a mishap more. */
  lemma RespondKeeps(o: Outside, first: nat, s: State, a: Account, answer: Answer)
    requires Books(o, first, s, a) && MayAnswer(s, answer)
    ensures var (s', r) := Respond(o, s, answer);
      && s'.parked == s.parked && s'.key == s.key && s'.pair == s.pair && s'.asked == s.asked
      && (r.Ok? && DebtOf(answer) in a.hand ==>
            Books(o, first, s', a.(hand := a.hand - multiset{DebtOf(answer)})))
      && (r.Err? ==> Books(o, first, s', a) && MayLose(o, first, s'))
  {
    hide Ids, Attempt, RepliesIn, ReplyAll, AnswersIn, SettledIn, LostIn, HeardIn, GrantedIn, UnusableIn, ParkedDebts,
         Keyed, AllSecret, Mishaps, DebtOf, AnswerBody, Timely, IsReply;
    var c := answer.call;
    AttemptKeeps(o, first, s, c.responseType, c.pid, AnswerBody(answer));
    var (tried, r) := Attempt(o, s, c.responseType, c.pid, AnswerBody(answer));
    KeyedElsewhere(o, s, tried);
    if r.Ok? {
      RepliesSnoc(s.sent, tried.sent[|s.sent|]);
      DeedSnoc(o, s.deeds, Sends(answer));
      ReplyAllSnoc(AnswersIn(s.deeds), answer);
      AnswerIsTimely(o, s, answer);
      KeyedSnoc(o, s, Sends(answer), Log(tried, Sends(answer)));
      MultisetMove(SettledIn(s.deeds), ParkedDebts(s.parked) + LostIn(s.deeds), a.hand, DebtOf(answer));
      NothingMore(s.deeds);
      IdsElsewhere(o, first, tried, Log(tried, Sends(answer)));
    }
  }

  lemma MultisetMove(settled: multiset<Debt>, rest: multiset<Debt>, hand: multiset<Debt>, d: Debt)
    ensures d in hand ==> settled + rest + hand == (settled + multiset{d}) + rest + (hand - multiset{d})
  {
  }

  lemma NothingMore(deeds: seq<Deed>)
    ensures LostIn(deeds) + multiset{} == LostIn(deeds)
    ensures HeardIn(deeds) + [] == HeardIn(deeds) && GrantedIn(deeds) + [] == GrantedIn(deeds)
    ensures AnswersIn(deeds) + [] == AnswersIn(deeds) && SettledIn(deeds) + multiset{} == SettledIn(deeds)
  {
  }

  lemma IdsElsewhere(o: Outside, first: nat, s: State, s': State)
    requires s'.nextId == s.nextId && s'.tries == s.tries && s'.sent == s.sent && s'.generated == s.generated
    ensures Ids(o, first, s') == Ids(o, first, s) && Mishaps(o, first, s') == Mishaps(o, first, s)
  {
    hide Increasing, Refused, Ungenerated;
  }

  /** A debt in hand is lost to a mishap. */
  lemma LoseKeeps(o: Outside, first: nat, s: State, a: Account, d: Debt)
    requires Books(o, first, s, a) && d in a.hand && MayLose(o, first, s)
    ensures Books(o, first, Log(s, Loses(d)), a.(hand := a.hand - multiset{d}))
  {
    hide Ids, RepliesIn, ReplyAll, AnswersIn, SettledIn, LostIn, HeardIn, GrantedIn, UnusableIn, ParkedDebts,
         Keyed, AllSecret, Mishaps;
    DeedSnoc(o, s.deeds, Loses(d));
    KeyedSnoc(o, s, Loses(d), Log(s, Loses(d)));
    MultisetMove(LostIn(s.deeds), SettledIn(s.deeds) + ParkedDebts(s.parked), a.hand, d);
    NothingMore(s.deeds);
    IdsElsewhere(o, first, s, Log(s, Loses(d)));
  }

  /** A deed that settles and loses nothing. */
  lemma LogKeeps(o: Outside, first: nat, s: State, a: Account, d: Deed, s': State)
    requires Books(o, first, s, a) && !d.Sends? && !d.Loses? && Timely(o, s.deeds, d)
    requires s' == Log(s, d).(key := s'.key, pair := s'.pair)
    requires s'.pair == if d.Starts? then Some(d.pair) else if d.Gives? || d.Hears? then None else s.pair
    requires s'.key ==
      if d.Gives? then Some(d.key) else if d.Hears? then Unwrapped(o, d.m, s.pair, s.key) else s.key
    ensures Books(o, first, s', a.(
      heard := a.heard + (if d.Hears? || d.Grants? || d.Declines? then [d.m] else []),
      granted := a.granted + (if d.Grants? then [d.m] else [])))
  {
    hide Ids, RepliesIn, ReplyAll, AnswersIn, SettledIn, LostIn, HeardIn, GrantedIn, UnusableIn, ParkedDebts,
         Keyed, AllSecret, Mishaps, Timely, Unwrapped;
    DeedSnoc(o, s.deeds, d);
    KeyedSnoc(o, s, d, s');
    NothingMore(s.deeds);
    IdsElsewhere(o, first, s, s');
  }

  // ---- The session key ----

  lemma SetKeyKeeps(o: Outside, first: nat, s: State, a: Account, key: C.Cipher)
    requires Books(o, first, s, a)
    ensures Books(o, first, SetKey(s, key), a) && Waits(SetKey(s, key))
  {
    hide Books;
    LogKeeps(o, first, s, a, Gives(key), SetKey(s, key));
    NothingAdded(a.heard);
    NothingAdded(a.granted);
  }

  lemma GenerateKeeps(o: Outside, first: nat, s: State, a: Account)
    requires Books(o, first, s, a)
    ensures var s' := s.(generated := s.generated + 1);
      Books(o, first, s', a) && (o.generate(s.generated).None? ==> MayLose(o, first, s'))
  {
    hide RepliesIn, ReplyAll, AnswersIn, SettledIn, LostIn, HeardIn, GrantedIn, ParkedDebts, Keyed, AllSecret, Increasing,
         Refused;
    KeyedElsewhere(o, s, s.(generated := s.generated + 1));
  }

  /** An exchange starts with no pair awaited; a failed one is a mishap. */
  lemma ExchangeKeeps(o: Outside, first: nat, s: State, a: Account)
    requires Books(o, first, s, a)
    ensures var (s', r) := ExchangeUnlessPending(o, s);
      && Books(o, first, s', a) && s'.parked == s.parked && s'.key == s.key && s'.asked == s.asked
      && (if r.Ok? then s'.pair.Some? else s'.pair.None? && s.pair.None? && MayLose(o, first, s'))
  {
    hide Books, Attempt, MayLose, KeyBody;
    if s.pair.None? {
      GenerateKeeps(o, first, s, a);
      var asked := s.(generated := s.generated + 1);
      if o.generate(s.generated).Some? {
        var pair := o.generate(s.generated).value;
        var body := KeyBody(o.blob(pair));
        AttemptKeepsBooks(o, first, asked, a, M.PublicKey, NIL, body);
        BooksIds(o, first, asked, a);
        AttemptKeeps(o, first, asked, M.PublicKey, NIL, body);
        var (s', r) := Attempt(o, asked, M.PublicKey, NIL, body);
        if r.Ok? {
          BooksIds(o, first, s', a);
          LogKeeps(o, first, s', a, Starts(pair), Log(s'.(pair := Some(pair)), Starts(pair)));
          NothingAdded(a.heard);
          NothingAdded(a.granted);
        }
      }
    }
  }

  lemma BooksIds(o: Outside, first: nat, s: State, a: Account)
    requires Books(o, first, s, a)
    ensures Ids(o, first, s) && s.pair == PairAfter(s.deeds) && AllSecret(s.parked)
  {
    hide Ids, PairAfter, AllSecret, KeyAfter, AllTimely;
  }

  /** The oldest parked answer, taken in hand. */
  lemma Unpark(o: Outside, first: nat, s: State, a: Account)
    requires Books(o, first, s, a) && s.parked != []
    ensures var p := s.parked[0]; var d := Debt(p.call, Gave(p.value));
      && Books(o, first, s.(parked := s.parked[1..]), a.(hand := a.hand + multiset{d}))
      && ContainsSecret(p.value) && IsReply(p.call.responseType)
      && (a.hand + multiset{d}) - multiset{d} == a.hand
  {
    hide RepliesIn, ReplyAll, AnswersIn, SettledIn, LostIn, HeardIn, GrantedIn, Keyed, Ids, Mishaps, ContainsSecret, IsReply;
    var s' := s.(parked := s.parked[1..]);
    KeyedElsewhere(o, s, s');
    IdsElsewhere(o, first, s, s');
  }

  /** Whether an answer goes out does not depend on what is parked. */
  lemma RespondFrame(o: Outside, s: State, answer: Answer, parked: seq<Parked>)
    ensures Respond(o, s.(parked := parked), answer)
         == (Respond(o, s, answer).0.(parked := parked), Respond(o, s, answer).1)
  {
    hide AnswerBody;
  }

  lemma {:induction false} FlushKeeps(o: Outside, first: nat, s: State, a: Account)
    requires Books(o, first, s, a)
    ensures var (s', r) := Flush(o, s);
      && Books(o, first, s', a) && s'.key == s.key && s'.pair == s.pair && s'.asked == s.asked
      && (r.Ok? && s.key.Some? ==> s'.parked == []) && (s.key.None? ==> s'.parked == s.parked && r.Ok?)
    decreases |s.parked|
  {
    hide Books, Respond;
    if s.key.Some? && s.parked != [] {
      var p := s.parked[0];
      var answer := Answered(p.call, p.value, s.key);
      var d := Debt(p.call, Gave(p.value));
      Unpark(o, first, s, a);
      RespondKeeps(o, first, s, a, answer);
      RespondKeeps(o, first, s.(parked := s.parked[1..]), a.(hand := a.hand + multiset{d}), answer);
      RespondFrame(o, s, answer, s.parked[1..]);
      var (s', r) := Respond(o, s, answer);
      if r.Ok? {
        FlushKeeps(o, first, s'.(parked := s.parked[1..]), a);
      }
    }
  }

  lemma {:induction false} GiveUpKeeps(o: Outside, first: nat, s: State, a: Account)
    requires Books(o, first, s, a)
    ensures var s' := GiveUp(o, s);
      Books(o, first, s', a) && s'.parked == [] && s'.key == s.key && s'.pair == s.pair && s'.asked == s.asked
    decreases |s.parked|
  {
    hide Books, Respond, MayLose;
    if s.parked != [] {
      var p := s.parked[0];
      var answer := GivenUp(p.call, p.value);
      Unpark(o, first, s, a);
      var rest, more := s.(parked := s.parked[1..]), a.(hand := a.hand + multiset{DebtOf(answer)});
      RespondKeeps(o, first, rest, more, answer);
      var (s', r) := Respond(o, rest, answer);
      if r.Err? {
        LoseKeeps(o, first, s', more, DebtOf(answer));
      }
      GiveUpKeeps(o, first, if r.Ok? then s' else Log(s', Loses(DebtOf(answer))), a);
    }
  }

  lemma AcceptKeyKeeps(o: Outside, first: nat, s: State, a: Account, m: M.Message)
    requires Books(o, first, s, a) && Waits(s)
    ensures var (s', r) := AcceptKey(o, s, m);
      Books(o, first, s', a.(heard := a.heard + [m])) && Waits(s') && s'.asked == s.asked
  {
    hide Books, Flush, GiveUp, SessionKeyOf;
    var heard := Log(s.(pair := None), Hears(m));
    var key := Unwrapped(o, m, s.pair, s.key);
    var after := a.(heard := a.heard + [m]);
    LogKeeps(o, first, s, a, Hears(m), heard.(key := key));
    NothingAdded(a.granted);
    if s.pair.Some? {
      FlushKeeps(o, first, heard.(key := key), after);
      GiveUpKeeps(o, first, heard.(key := key), after);
    }
  }

  lemma GrantKeeps(o: Outside, first: nat, s: State, a: Account, m: M.Message)
    requires Books(o, first, s, a) && Waits(s)
    ensures var (s', r) := GrantRequest(o, s, m);
      && Books(o, first, s', a.(heard := a.heard + [m], granted := a.granted + if r.Ok? then [m] else []))
      && Waits(s') && s'.asked == s.asked
  {
    hide Books, ExchangeUnlessPending, MayLose;
    ExchangeKeeps(o, first, s, a);
    var (s', r) := ExchangeUnlessPending(o, s);
    var d := if r.Ok? then Grants(m) else Declines(m);
    BooksIds(o, first, s', a);
    LogKeeps(o, first, s', a, d, Log(s', d));
  }

  // ---- Host calls ----

  /** A debt in hand, dealt with at once. */
  lemma AnswerNowKeeps(o: Outside, first: nat, s: State, a: Account, answer: Answer)
    requires Books(o, first, s, a) && MayAnswer(s, answer) && DebtOf(answer) in a.hand && Waits(s)
    ensures var (s', r) := AnswerNow(o, s, answer);
      && Books(o, first, s', a.(hand := a.hand - multiset{DebtOf(answer)})) && Waits(s') && s'.asked == s.asked
  {
    hide Books, Respond, MayLose, DebtOf;
    RespondKeeps(o, first, s, a, answer);
    var (s', r) := Respond(o, s, answer);
    if r.Err? {
      LoseKeeps(o, first, s', a, DebtOf(answer));
    }
  }

  lemma ParkKeeps(o: Outside, first: nat, s: State, a: Account, call: Call, value: Value)
    requires Books(o, first, s, a) && Debt(call, Gave(value)) in a.hand
    requires ContainsSecret(value) && IsReply(call.responseType) && s.key.None? && Waits(s)
    ensures var (s', r) := Park(o, s, call, value);
      && Books(o, first, s', a.(hand := a.hand - multiset{Debt(call, Gave(value))})) && Waits(s') && s'.asked == s.asked
  {
    hide Books, ExchangeUnlessPending, MayLose, ContainsSecret, IsReply;
    ExchangeKeeps(o, first, s, a);
    var (s', r) := ExchangeUnlessPending(o, s);
    if r.Ok? {
      ParkOne(o, first, s', a, Parked(call, value));
    } else {
      LoseKeeps(o, first, s', a, Debt(call, Gave(value)));
    }
  }

  lemma ParkOne(o: Outside, first: nat, s: State, a: Account, p: Parked)
    requires Books(o, first, s, a) && Debt(p.call, Gave(p.value)) in a.hand
    requires ContainsSecret(p.value) && IsReply(p.call.responseType)
    ensures Books(o, first, s.(parked := s.parked + [p]), a.(hand := a.hand - multiset{Debt(p.call, Gave(p.value))}))
  {
    hide RepliesIn, ReplyAll, AnswersIn, SettledIn, LostIn, HeardIn, GrantedIn, Keyed, Ids, Mishaps, ContainsSecret,
         IsReply, ParkedDebts;
    var s' := s.(parked := s.parked + [p]);
    ParkedSnoc(s.parked, p);
    MultisetMove(ParkedDebts(s.parked), SettledIn(s.deeds) + LostIn(s.deeds), a.hand, Debt(p.call, Gave(p.value)));
    KeyedElsewhere(o, s, s');
    IdsElsewhere(o, first, s, s');
  }

  /** The debt that a call makes, if the host is not silent. */
  function DebtIf(call: Call, result: HostResult): multiset<Debt> {
    if result.Void? then multiset{} else multiset{Debt(call, result)}
  }

  lemma SettleKeeps(o: Outside, first: nat, s: State, a: Account, call: Call, result: HostResult)
    requires Books(o, first, s, a) && Waits(s) && IsReply(call.responseType) && a.hand == multiset{}
    ensures var (s', r) := Settle(o, s, call, result);
      && Books(o, first, s', a.(owed := a.owed + DebtIf(call, result))) && Waits(s') && s'.asked == s.asked
  {
    hide Books, AnswerNow, Park, ContainsSecret, IsReply;
    var d := Debt(call, result);
    if !result.Void? {
      var more := a.(owed := a.owed + multiset{d}, hand := multiset{d});
      OweMore(o, first, s, a, d);
      assert multiset{d} - multiset{d} == multiset{};
      match result
      case Threw(why) => AnswerNowKeeps(o, first, s, more, Excused(call, why));
      case Gave(value) =>
        if ContainsSecret(value) && s.key.None? {
          ParkKeeps(o, first, s, more, call, value);
        } else {
          AnswerNowKeeps(o, first, s, more, Answered(call, value, s.key));
        }
      case Void =>
    } else {
      assert a.owed + multiset{} == a.owed;
    }
  }

  lemma OweMore(o: Outside, first: nat, s: State, a: Account, d: Debt)
    requires Books(o, first, s, a) && a.hand == multiset{}
    ensures Books(o, first, s, a.(owed := a.owed + multiset{d}, hand := multiset{d}))
  {
    hide RepliesIn, ReplyAll, AnswersIn, SettledIn, LostIn, HeardIn, GrantedIn, Keyed, Ids, Mishaps, ParkedDebts;
  }

  // ---- Messages ----

  /** A host call that can be read: the host is asked. */
  predicate AsksHost(o: Outside, m: M.Message) {
    IsHostCall(m.messageType) && CallOf(o.parse, m).Ok?
  }

  /** How many of the messages ask the host. */
  function AskedIn(o: Outside, ms: seq<M.Message>): nat {
    if ms == [] then 0 else AskedIn(o, ms[..|ms| - 1]) + if AsksHost(o, ms[|ms| - 1]) then 1 else 0
  }

  /** The debt of a message about which the host is asked for the `n`-th time. */
  function Owed(o: Outside, n: nat, m: M.Message): multiset<Debt> {
    if AsksHost(o, m) then DebtIf(CallOf(o.parse, m).value, o.host(n, m)) else multiset{}
  }

  /** The calls among the messages that want an answer, each with what the host made of it. */
  function DebtsIn(o: Outside, ms: seq<M.Message>): multiset<Debt> {
    if ms == [] then multiset{}
    else
      var front := ms[..|ms| - 1];
      DebtsIn(o, front) + Owed(o, AskedIn(o, front), ms[|ms| - 1])
  }

  /** Host calls that cannot be read. */
  function UnreadableIn(o: Outside, ms: seq<M.Message>): nat {
    if ms == [] then 0
    else
      var m := ms[|ms| - 1];
      UnreadableIn(o, ms[..|ms| - 1]) + if IsHostCall(m.messageType) && !AsksHost(o, m) then 1 else 0
  }

  predicate IsKeyMessage(t: M.MessageType) {
    t.EncryptedSessionKey? || t.PublicKeyRequest?
  }

  function KeyMessagesIn(ms: seq<M.Message>): seq<M.Message> {
    if ms == [] then []
    else KeyMessagesIn(ms[..|ms| - 1]) + if IsKeyMessage(ms[|ms| - 1].messageType) then [ms[|ms| - 1]] else []
  }

  function RequestsIn(ms: seq<M.Message>): seq<M.Message> {
    if ms == [] then []
    else RequestsIn(ms[..|ms| - 1]) + if ms[|ms| - 1].messageType.PublicKeyRequest? then [ms[|ms| - 1]] else []
  }

  lemma MessageSnoc(o: Outside, ms: seq<M.Message>, m: M.Message)
    ensures AskedIn(o, ms + [m]) == AskedIn(o, ms) + if AsksHost(o, m) then 1 else 0
    ensures DebtsIn(o, ms + [m]) == DebtsIn(o, ms) + Owed(o, AskedIn(o, ms), m)
    ensures UnreadableIn(o, ms + [m])
         == UnreadableIn(o, ms) + if IsHostCall(m.messageType) && !AsksHost(o, m) then 1 else 0
    ensures KeyMessagesIn(ms + [m]) == KeyMessagesIn(ms) + if IsKeyMessage(m.messageType) then [m] else []
    ensures RequestsIn(ms + [m]) == RequestsIn(ms) + if m.messageType.PublicKeyRequest? then [m] else []
  {
    hide AsksHost, Owed;
    assert (ms + [m])[..|ms|] == ms;
  }

  /** The account after a message that was dealt with, well or not. */
  function AccountAfter(o: Outside, a: Account, asked: nat, m: M.Message, ok: bool): Account {
    a.(owed := a.owed + Owed(o, asked, m),
       heard := a.heard + (if IsKeyMessage(m.messageType) then [m] else []),
       granted := a.granted + (if m.messageType.PublicKeyRequest? && ok then [m] else []))
  }

  lemma HandleCallKeeps(o: Outside, first: nat, s: State, a: Account, m: M.Message)
    requires Books(o, first, s, a) && Waits(s) && IsHostCall(m.messageType) && a.hand == multiset{}
    ensures var (s', r) := HandleCall(o, s, m);
      && Books(o, first, s', a.(owed := a.owed + Owed(o, s.asked, m))) && Waits(s')
      && s'.asked == s.asked + if AsksHost(o, m) then 1 else 0
  {
    hide Books, Settle, CallOf, IsHostCall;
    CallsAreReplied(o.parse, m);
    if CallOf(o.parse, m).Ok? {
      var s1 := s.(asked := s.asked + 1);
      AskedElsewhere(o, first, s, a);
      SettleKeeps(o, first, s1, a, CallOf(o.parse, m).value, o.host(s.asked, m));
    } else {
      assert a.owed + multiset{} == a.owed;
    }
  }

  lemma AskedElsewhere(o: Outside, first: nat, s: State, a: Account)
    requires Books(o, first, s, a)
    ensures Books(o, first, s.(asked := s.asked + 1), a)
  {
    hide RepliesIn, ReplyAll, AnswersIn, SettledIn, LostIn, HeardIn, GrantedIn, Keyed, Ids, Mishaps, ParkedDebts, AllSecret;
    KeyedElsewhere(o, s, s.(asked := s.asked + 1));
    IdsElsewhere(o, first, s, s.(asked := s.asked + 1));
  }

  lemma DealKeeps(o: Outside, first: nat, s: State, a: Account, m: M.Message)
    requires Books(o, first, s, a) && Waits(s) && a.hand == multiset{}
    ensures var (s', r) := Deal(o, s, m);
      && Books(o, first, s', AccountAfter(o, a, s.asked, m, r.Ok?)) && Waits(s')
      && s'.asked == s.asked + if AsksHost(o, m) then 1 else 0
  {
    hide Books, HandleCall, AcceptKey, GrantRequest, Waits, DebtIf, CallOf;
    NothingAdded(a.heard);
    NothingAdded(a.granted);
    if IsHostCall(m.messageType) {
      HandleCallKeeps(o, first, s, a, m);
    } else {
      assert a.owed + multiset{} == a.owed;
      if m.messageType.EncryptedSessionKey? {
        AcceptKeyKeeps(o, first, s, a, m);
      } else if m.messageType.PublicKeyRequest? {
        GrantKeeps(o, first, s, a, m);
      }
    }
  }

  // ---- Failures have reasons ----

  /** All that went wrong so far, outside or in a reply that held no key. */
  function Weight(o: Outside, first: nat, s: State): nat {
    Mishaps(o, first, s) + UnusableIn(o, s.deeds)
  }

  /** A step that failed has a reason more; one that did not has lost nothing. */
  predicate Reasoned(o: Outside, first: nat, s: State, s': State, ok: bool) {
    && Ids(o, first, s')
    && Weight(o, first, s) + (if ok then 0 else 1) <= Weight(o, first, s')
    && (ok ==> LostIn(s'.deeds) == LostIn(s.deeds))
  }

  lemma AttemptReasoned(o: Outside, first: nat, s: State, t: M.MessageType, pid: Guid, body: Value)
    requires Ids(o, first, s)
    ensures var (s', r) := Attempt(o, s, t, pid, body); Reasoned(o, first, s, s', r.Ok?) && s'.deeds == s.deeds
  {
    hide Ids, Attempt, UnusableIn, LostIn, Mishaps;
    AttemptKeeps(o, first, s, t, pid, body);
  }

  /** A deed that is neither a loss nor an unusable reply. */
  lemma LogReasoned(o: Outside, first: nat, s: State, s': State, d: Deed)
    requires Ids(o, first, s) && s'.deeds == s.deeds + [d]
    requires s'.nextId == s.nextId && s'.tries == s.tries && s'.sent == s.sent && s'.generated == s.generated
    ensures Ids(o, first, s') && Weight(o, first, s') == Weight(o, first, s) + Unusable(o, s.deeds, d)
    ensures !d.Loses? ==> LostIn(s'.deeds) == LostIn(s.deeds)
  {
    hide Ids, Mishaps, UnusableIn, Unusable, LostIn;
    IdsElsewhere(o, first, s, s');
    DeedSnoc(o, s.deeds, d);
    NothingMore(s.deeds);
  }

  lemma RespondReasoned(o: Outside, first: nat, s: State, a: Answer)
    requires Ids(o, first, s)
    ensures var (s', r) := Respond(o, s, a); Reasoned(o, first, s, s', r.Ok?)
  {
    hide Ids, Attempt, Weight, LostIn, AnswerBody;
    AttemptReasoned(o, first, s, a.call.responseType, a.call.pid, AnswerBody(a));
    var (s', r) := Attempt(o, s, a.call.responseType, a.call.pid, AnswerBody(a));
    LogReasoned(o, first, s', Log(s', Sends(a)), Sends(a));
  }

  lemma ExchangeReasoned(o: Outside, first: nat, s: State)
    requires Ids(o, first, s)
    ensures var (s', r) := ExchangeUnlessPending(o, s); Reasoned(o, first, s, s', r.Ok?)
  {
    hide Attempt, LostIn, UnusableIn, Refused, Increasing, KeyBody;
    if s.pair.None? {
      var asked := s.(generated := s.generated + 1);
      assert Ids(o, first, asked);
      if o.generate(s.generated).Some? {
        var pair := o.generate(s.generated).value;
        var body := KeyBody(o.blob(pair));
        AttemptReasoned(o, first, asked, M.PublicKey, NIL, body);
        var (s', r) := Attempt(o, asked, M.PublicKey, NIL, body);
        LogReasoned(o, first, s', Log(s'.(pair := Some(pair)), Starts(pair)), Starts(pair));
      }
    }
  }

  lemma {:induction false} FlushReasoned(o: Outside, first: nat, s: State)
    requires Ids(o, first, s)
    ensures var (s', r) := Flush(o, s); Reasoned(o, first, s, s', r.Ok?)
    decreases |s.parked|
  {
    hide Ids, Weight, LostIn, Respond;
    if s.key.Some? && s.parked != [] {
      var answer := Answered(s.parked[0].call, s.parked[0].value, s.key);
      RespondReasoned(o, first, s, answer);
      var (s', r) := Respond(o, s, answer);
      WeightElsewhere(o, first, s', s'.(parked := s.parked[1..]));
      if r.Ok? {
        FlushReasoned(o, first, s'.(parked := s.parked[1..]));
      }
    }
  }

  lemma WeightElsewhere(o: Outside, first: nat, s: State, s': State)
    requires s'.nextId == s.nextId && s'.tries == s.tries && s'.sent == s.sent && s'.generated == s.generated
    requires s'.deeds == s.deeds
    ensures Ids(o, first, s') == Ids(o, first, s) && Weight(o, first, s') == Weight(o, first, s)
  {
    hide Ids, Mishaps;
    IdsElsewhere(o, first, s, s');
  }

  lemma {:induction false} GiveUpReasoned(o: Outside, first: nat, s: State)
    requires Ids(o, first, s)
    ensures var s' := GiveUp(o, s); Ids(o, first, s') && Weight(o, first, s) <= Weight(o, first, s')
    decreases |s.parked|
  {
    hide Ids, Weight, LostIn, Respond;
    if s.parked != [] {
      var a := GivenUp(s.parked[0].call, s.parked[0].value);
      var rest := s.(parked := s.parked[1..]);
      RespondParks(o, rest, a);
      WeightElsewhere(o, first, s, rest);
      RespondReasoned(o, first, rest, a);
      var (s', r) := Respond(o, rest, a);
      LogReasoned(o, first, s', Log(s', Loses(DebtOf(a))), Loses(DebtOf(a)));
      GiveUpReasoned(o, first, if r.Ok? then s' else Log(s', Loses(DebtOf(a))));
    }
  }

  lemma RespondParks(o: Outside, s: State, a: Answer)
    ensures Respond(o, s, a).0.parked == s.parked && Respond(o, s, a).0.key == s.key
  {
    hide AnswerBody;
  }

  lemma AcceptKeyReasoned(o: Outside, first: nat, s: State, m: M.Message)
    requires Ids(o, first, s) && s.pair == PairAfter(s.deeds)
    ensures var (s', r) := AcceptKey(o, s, m); Reasoned(o, first, s, s', r.Ok?)
  {
    hide Ids, Weight, LostIn, Flush, GiveUp, SessionKeyOf, PairAfter;
    var heard := Log(s.(pair := None), Hears(m));
    LogReasoned(o, first, s, heard, Hears(m));
    if s.pair.Some? {
      var key := SessionKeyOf(o.parse, o.unwrap, m, s.pair.value);
      if key.None? {
        GiveUpReasoned(o, first, heard);
      } else {
        WeightElsewhere(o, first, heard, heard.(key := key));
        FlushReasoned(o, first, heard.(key := key));
      }
    }
  }

  lemma GrantReasoned(o: Outside, first: nat, s: State, m: M.Message)
    requires Ids(o, first, s)
    ensures var (s', r) := GrantRequest(o, s, m); Reasoned(o, first, s, s', r.Ok?)
  {
    hide Ids, Weight, LostIn, ExchangeUnlessPending;
    ExchangeReasoned(o, first, s);
    var (s', r) := ExchangeUnlessPending(o, s);
    var d := if r.Ok? then Grants(m) else Declines(m);
    LogReasoned(o, first, s', Log(s', d), d);
  }

  lemma SettleReasoned(o: Outside, first: nat, s: State, call: Call, result: HostResult)
    requires Ids(o, first, s)
    ensures var (s', r) := Settle(o, s, call, result); Reasoned(o, first, s, s', r.Ok?)
  {
    hide Ids, Weight, LostIn, ExchangeUnlessPending, Respond, ContainsSecret, DebtOf;
    match result
    case Void =>
    case Threw(why) => AnswerReasoned(o, first, s, Excused(call, why));
    case Gave(value) =>
      if ContainsSecret(value) && s.key.None? {
        ExchangeReasoned(o, first, s);
        var (s', r) := ExchangeUnlessPending(o, s);
        WeightElsewhere(o, first, s', s'.(parked := s'.parked + [Parked(call, value)]));
        LogReasoned(o, first, s', Log(s', Loses(Debt(call, Gave(value)))), Loses(Debt(call, Gave(value))));
      } else {
        AnswerReasoned(o, first, s, Answered(call, value, s.key));
      }
  }

  lemma AnswerReasoned(o: Outside, first: nat, s: State, a: Answer)
    requires Ids(o, first, s)
    ensures var (s', r) := AnswerNow(o, s, a); Reasoned(o, first, s, s', r.Ok?)
  {
    hide Ids, Weight, LostIn, Respond, DebtOf;
    RespondReasoned(o, first, s, a);
    var (s', r) := Respond(o, s, a);
    LogReasoned(o, first, s', Log(s', Loses(DebtOf(a))), Loses(DebtOf(a)));
  }

  /** A message fails only because its call cannot be read, or for a reason outside or in the reply it is. */
  lemma DealReasoned(o: Outside, first: nat, s: State, m: M.Message)
    requires Ids(o, first, s) && s.pair == PairAfter(s.deeds)
    ensures var (s', r) := Deal(o, s, m);
      Reasoned(o, first, s, s', r.Ok? || (IsHostCall(m.messageType) && !AsksHost(o, m)))
  {
    hide Ids, Weight, LostIn, Settle, AcceptKey, GrantRequest, CallOf, PairAfter;
    if IsHostCall(m.messageType) {
      if CallOf(o.parse, m).Ok? {
        WeightElsewhere(o, first, s, s.(asked := s.asked + 1));
        SettleReasoned(o, first, s.(asked := s.asked + 1), CallOf(o.parse, m).value, o.host(s.asked, m));
      }
    } else if m.messageType.EncryptedSessionKey? {
      AcceptKeyReasoned(o, first, s, m);
    } else if m.messageType.PublicKeyRequest? {
      GrantReasoned(o, first, s, m);
    }
  }

  // ---- A whole pool ----

  /** The account of the messages taken. */
  function AccountOf(o: Outside, taken: seq<M.Message>, kept: seq<M.Message>): Account {
    Account(DebtsIn(o, taken), multiset{}, KeyMessagesIn(taken), RequestsIn(kept))
  }

  /** The sending side: every message taken was dealt with, and what failed has a reason. */
  ghost predicate Dutiful(o: Outside, first: nat, s: State, taken: seq<M.Message>, kept: seq<M.Message>) {
    && Books(o, first, s, AccountOf(o, taken, kept)) && Waits(s) && s.asked == AskedIn(o, taken)
    && |kept| <= |taken| <= |kept| + Weight(o, first, s) + UnreadableIn(o, taken)
    && (|taken| <= |kept| ==> LostIn(s.deeds) == multiset{})
  }

  /** The reading side: wire order, and what the readers got. */
  predicate Orderly(p: Pool) {
    && InOrder(p.arrived, p.taken, p.pending)
    && p.handed == Readers(p.kept)
    && |p.kept| <= |p.taken| && KeptFrom(p.taken, p.kept, |p.taken| - |p.kept|)
    && Arrivals(p.fed) == Arrival(p.buffer, p.arrived)
  }

  ghost predicate Sound(o: Outside, first: nat, p: Pool) {
    Dutiful(o, first, p.state, p.taken, p.kept) && Orderly(p)
  }

  lemma BeginIsSound(o: Outside, first: nat, script: seq<Incoming>)
    requires first <= U64_MAX
    ensures Sound(o, first, Begin(first, script))
  {
    hide F.Feed;
  }

  /** A sending step between two messages. */
  lemma StepKeeps(o: Outside, first: nat, s: State, s': State, taken: seq<M.Message>, kept: seq<M.Message>)
    requires Dutiful(o, first, s, taken, kept)
    requires Books(o, first, s', AccountOf(o, taken, kept)) && Waits(s') && s'.asked == s.asked
    requires Weight(o, first, s) <= Weight(o, first, s') && LostIn(s'.deeds) == LostIn(s.deeds)
    ensures Dutiful(o, first, s', taken, kept)
  {
    hide Books, Weight, LostIn, UnreadableIn, AskedIn, AccountOf;
  }

  lemma DutifulIds(o: Outside, first: nat, s: State, taken: seq<M.Message>, kept: seq<M.Message>)
    requires Dutiful(o, first, s, taken, kept)
    ensures Ids(o, first, s) && s.pair == PairAfter(s.deeds)
  {
    hide Books, Weight, LostIn, UnreadableIn, AskedIn, AccountOf;
    BooksIds(o, first, s, AccountOf(o, taken, kept));
  }

  lemma {:induction false} FlushLosesNothing(o: Outside, s: State)
    ensures LostIn(Flush(o, s).0.deeds) == LostIn(s.deeds)
    decreases |s.parked|
  {
    hide Respond, LostIn;
    if s.key.Some? && s.parked != [] {
      var answer := Answered(s.parked[0].call, s.parked[0].value, s.key);
      var (s', r) := Respond(o, s, answer);
      RespondLosesNothing(o, s, answer);
      if r.Ok? {
        FlushLosesNothing(o, s'.(parked := s.parked[1..]));
      }
    }
  }

  lemma RespondLosesNothing(o: Outside, s: State, a: Answer)
    ensures LostIn(Respond(o, s, a).0.deeds) == LostIn(s.deeds)
  {
    hide AnswerBody, LostIn;
    DeedSnoc(o, s.deeds, Sends(a));
    NothingMore(s.deeds);
  }

  lemma FlushIsDutiful(o: Outside, first: nat, s: State, taken: seq<M.Message>, kept: seq<M.Message>)
    requires Dutiful(o, first, s, taken, kept)
    ensures Dutiful(o, first, Flush(o, s).0, taken, kept)
  {
    hide Books, Weight, LostIn, UnreadableIn, AskedIn, AccountOf, Flush;
    DutifulIds(o, first, s, taken, kept);
    FlushKeeps(o, first, s, AccountOf(o, taken, kept));
    FlushReasoned(o, first, s);
    FlushLosesNothing(o, s);
    StepKeeps(o, first, s, Flush(o, s).0, taken, kept);
  }

  /** A message taken off the queue and dealt with. */
  lemma DealIsDutiful(o: Outside, first: nat, s: State, taken: seq<M.Message>, kept: seq<M.Message>, m: M.Message)
    requires Dutiful(o, first, s, taken, kept)
    ensures var (s', r) := Deal(o, s, m); Dutiful(o, first, s', taken + [m], if r.Ok? then kept + [m] else kept)
  {
    hide Books, Weight, LostIn, UnreadableIn, AskedIn, Deal, DebtsIn, KeyMessagesIn, RequestsIn, Owed, AsksHost,
         IsHostCall, IsKeyMessage, Ids, Waits, PairAfter;
    var a := AccountOf(o, taken, kept);
    var (s', r) := Deal(o, s, m);
    DutifulIds(o, first, s, taken, kept);
    DealKeeps(o, first, s, a, m);
    DealReasoned(o, first, s, m);
    MessageSnoc(o, taken, m);
    MessageSnoc(o, kept, m);
    NothingAdded(RequestsIn(kept));
    assert AccountAfter(o, a, s.asked, m, r.Ok?) == AccountOf(o, taken + [m], if r.Ok? then kept + [m] else kept);
  }

  lemma TakeIsSound(o: Outside, first: nat, p: Pool)
    requires Sound(o, first, p) && p.pending != []
    ensures Sound(o, first, Take(o, p).0)
  {
    hide Dutiful, Deal, InOrder, Readers, KeptFrom, Arrivals, IsHostCall;
    var m := p.pending[|p.pending| - 1];
    DealIsDutiful(o, first, p.state, p.taken, p.kept, m);
    PopOrder(p.arrived, p.taken, p.pending);
    ReadersSnoc(p.kept, m);
    NothingAdded(Readers(p.kept));
    KeepOrDrop(p.taken, p.kept, |p.taken| - |p.kept|, m);
    var q := Take(o, p).0;
    assert q.taken == p.taken + [m] && q.pending == p.pending[..|p.pending| - 1];
    assert q.kept == p.kept || q.kept == p.kept + [m];
    assert KeptFrom(q.taken, q.kept, |q.taken| - |q.kept|);
    assert q.state == Deal(o, p.state, m).0;
    assert q.kept == if Deal(o, p.state, m).1.Ok? then p.kept + [m] else p.kept;
  }

  lemma ReceiveIsSound(o: Outside, first: nat, p: Pool)
    requires Sound(o, first, p) && p.pending == [] && p.incoming != []
    ensures Sound(o, first, Receive(o, p).0)
  {
    hide Dutiful, InOrder, Readers, KeptFrom, Arrivals, F.Feed, DecodeAll, Reversed;
    var next := p.incoming[0];
    if next.Chunk? {
      ArrivalsSnoc(p.fed, next.bytes);
      var one := F.Feed(p.buffer, next.bytes);
      NothingAdded(p.arrived);
      if one.result.Ok? && DecodeAll(one.result.value).Some? {
        QueueOrder(p.arrived, p.taken, DecodeAll(one.result.value).value);
      }
    }
  }

  lemma {:induction false} NextIsSound(o: Outside, first: nat, p: Pool)
    requires Sound(o, first, p)
    ensures Sound(o, first, Next(o, p).0)
    decreases |p.incoming|, |p.pending|, 1
  {
    hide Dutiful, Orderly, Flush, Turn;
    FlushIsDutiful(o, first, p.state, p.taken, p.kept);
    var (s, r) := Flush(o, p.state);
    OrderlyElsewhere(p, p.(state := s));
    if r.Ok? {
      TurnIsSound(o, first, p.(state := s));
    }
  }

  lemma OrderlyElsewhere(p: Pool, q: Pool)
    requires q == p.(state := q.state)
    ensures Orderly(q) == Orderly(p)
  {
    hide InOrder, Readers, KeptFrom, Arrivals;
  }

  lemma {:induction false} TurnIsSound(o: Outside, first: nat, p: Pool)
    requires Sound(o, first, p)
    ensures Sound(o, first, Turn(o, p).0)
    decreases |p.incoming|, |p.pending|, 0
  {
    hide Sound, Next, Deal, Queue;
    if p.pending != [] {
      TakeIsSound(o, first, p);
      var (q, r) := Take(o, p);
      if r.Ok? && r.value.None? {
        NextIsSound(o, first, q);
      }
    } else if p.incoming != [] {
      ReceiveIsSound(o, first, p);
      var (q, r) := Receive(o, p);
      QueueReads(p.(incoming := p.incoming[1..]), if p.incoming[0].Chunk? then p.incoming[0].bytes else []);
      if r.Ok? && r.value.None? {
        NextIsSound(o, first, q);
      }
    }
  }

  lemma QueueReads(p: Pool, bytes: seq<byte>)
    ensures Queue(p, bytes).0.incoming == p.incoming
  {
    hide F.Feed, DecodeAll, Reversed;
  }

  // ---- Every run ----

  /** A message a caller may send: the answers to host calls are the pool's own. */
  predicate Proper(op: Op) {
    op.SendOther? ==> !IsReply(op.messageType)
  }

  lemma SetKeyIsDutiful(o: Outside, first: nat, s: State, taken: seq<M.Message>, kept: seq<M.Message>, key: C.Cipher)
    requires Dutiful(o, first, s, taken, kept)
    ensures Dutiful(o, first, SetKey(s, key), taken, kept)
  {
    hide Books, Weight, LostIn, UnreadableIn, AskedIn, AccountOf, Ids;
    DutifulIds(o, first, s, taken, kept);
    SetKeyKeeps(o, first, s, AccountOf(o, taken, kept), key);
    LogReasoned(o, first, s, SetKey(s, key), Gives(key));
    StepKeeps(o, first, s, SetKey(s, key), taken, kept);
  }

  lemma AskKeyIsDutiful(o: Outside, first: nat, s: State, taken: seq<M.Message>, kept: seq<M.Message>)
    requires Dutiful(o, first, s, taken, kept)
    ensures Dutiful(o, first, ExchangeUnlessPending(o, s).0, taken, kept)
  {
    hide Books, Weight, LostIn, UnreadableIn, AskedIn, AccountOf, Ids, ExchangeUnlessPending, MayLose;
    DutifulIds(o, first, s, taken, kept);
    ExchangeKeeps(o, first, s, AccountOf(o, taken, kept));
    ExchangeReasoned(o, first, s);
    ExchangeLosesNothing(o, s);
    StepKeeps(o, first, s, ExchangeUnlessPending(o, s).0, taken, kept);
  }

  lemma ExchangeLosesNothing(o: Outside, s: State)
    ensures LostIn(ExchangeUnlessPending(o, s).0.deeds) == LostIn(s.deeds)
  {
    hide LostIn, KeyBody;
    if o.generate(s.generated).Some? {
      DeedSnoc(o, s.deeds, Starts(o.generate(s.generated).value));
      NothingMore(s.deeds);
    }
  }

  lemma SendIsDutiful(o: Outside, first: nat, s: State, taken: seq<M.Message>, kept: seq<M.Message>,
                      t: M.MessageType, pid: Guid, body: Value)
    requires Dutiful(o, first, s, taken, kept) && !IsReply(t)
    ensures Dutiful(o, first, Attempt(o, s, t, pid, body).0, taken, kept)
  {
    hide Books, Weight, LostIn, UnreadableIn, AskedIn, AccountOf, Ids, Attempt, MayLose;
    DutifulIds(o, first, s, taken, kept);
    AttemptKeepsBooks(o, first, s, AccountOf(o, taken, kept), t, pid, body);
    AttemptKeeps(o, first, s, t, pid, body);
    AttemptReasoned(o, first, s, t, pid, body);
    StepKeeps(o, first, s, Attempt(o, s, t, pid, body).0, taken, kept);
  }

  lemma ApplyIsSound(o: Outside, first: nat, p: Pool, op: Op)
    requires Sound(o, first, p) && Proper(op)
    ensures Sound(o, first, Apply(o, p, op))
  {
    hide Dutiful, Orderly, Next, SetKey, ExchangeUnlessPending, Attempt, IsReply;
    match op
    case ReadOne => NextIsSound(o, first, p);
    case GiveKey(key) =>
      SetKeyIsDutiful(o, first, p.state, p.taken, p.kept, key);
      OrderlyElsewhere(p, Apply(o, p, op));
    case AskKey =>
      AskKeyIsDutiful(o, first, p.state, p.taken, p.kept);
      OrderlyElsewhere(p, Apply(o, p, op));
    case SendOther(t, pid, body) =>
      SendIsDutiful(o, first, p.state, p.taken, p.kept, t, pid, body);
      OrderlyElsewhere(p, Apply(o, p, op));
  }

  /** Whatever is asked of a pool, and whatever world it runs in. */
  lemma {:induction false} EveryRunIsSound(o: Outside, first: nat, script: seq<Incoming>, ops: seq<Op>)
    requires first <= U64_MAX && forall i :: 0 <= i < |ops| ==> Proper(ops[i])
    ensures Sound(o, first, After(o, Begin(first, script), ops))
  {
    hide Sound, Apply, Begin, Proper;
    if ops == [] {
      BeginIsSound(o, first, script);
    } else {
      EveryRunIsSound(o, first, script, ops[..|ops| - 1]);
      ApplyIsSound(o, first, After(o, Begin(first, script), ops[..|ops| - 1]), ops[|ops| - 1]);
    }
  }

  // ---- What that means ----

  /** If nothing went wrong outside, each call that wants an answer was answered once or is parked once. */
  lemma EveryCallIsAnswered(o: Outside, first: nat, p: Pool)
    requires Sound(o, first, p) && Mishaps(o, first, p.state) == 0
    ensures DebtsIn(o, p.taken) == SettledIn(p.state.deeds) + ParkedDebts(p.state.parked)
  {
    hide Ids, RepliesIn, ReplyAll, AnswersIn, SettledIn, LostIn, HeardIn, GrantedIn, ParkedDebts, Keyed, AllSecret,
         DebtsIn, KeyMessagesIn, RequestsIn, Mishaps, Orderly, Weight;
    assert |LostIn(p.state.deeds)| == 0;
  }

  /** If no message failed, nothing was lost, whatever went wrong. */
  lemma NothingIsLostSilently(o: Outside, first: nat, p: Pool)
    requires Sound(o, first, p) && p.kept == p.taken
    ensures DebtsIn(o, p.taken) == SettledIn(p.state.deeds) + ParkedDebts(p.state.parked)
  {
    hide Ids, RepliesIn, ReplyAll, AnswersIn, SettledIn, LostIn, HeardIn, GrantedIn, ParkedDebts, Keyed, AllSecret,
         DebtsIn, KeyMessagesIn, RequestsIn, Mishaps, Orderly, Weight;
  }

  /** A debt is the word of the host on a call that was read. */
  lemma {:induction false} DebtHasCall(o: Outside, ms: seq<M.Message>, d: Debt) returns (j: nat)
    requires d in DebtsIn(o, ms)
    ensures j < |ms| && AsksHost(o, ms[j]) && CallOf(o.parse, ms[j]) == Ok(d.call)
    ensures d.result == o.host(AskedIn(o, ms[..j]), ms[j]) && !d.result.Void?
  {
    hide CallOf, AskedIn;
    j := |ms| - 1;
    if d !in Owed(o, AskedIn(o, ms[..j]), ms[j]) {
      var front := ms[..|ms| - 1];
      j := DebtHasCall(o, front, d);
      assert front[..j] == ms[..j];
    }
  }

  lemma {:induction false} AnswerSettles(deeds: seq<Deed>, i: nat)
    requires i < |AnswersIn(deeds)|
    ensures DebtOf(AnswersIn(deeds)[i]) in SettledIn(deeds)
  {
    hide DebtOf;
    var front := deeds[..|deeds| - 1];
    if i < |AnswersIn(front)| {
      AnswerSettles(front, i);
    }
  }

  /**
   * The `i`-th host response on the wire answers a call that was read: to the pipeline it came from, in kind, under
   * its ids, with what the host made of it: an error, or the value, its secrets encrypted under the key held then.
   */
  predicate AnswersCall(o: Outside, taken: seq<M.Message>, j: nat, r: Reply, key: Option<C.Cipher>, givenUp: bool) {
    && j < |taken| && IsHostCall(taken[j].messageType) && CallOf(o.parse, taken[j]).Ok?
    && (var m, call := taken[j], CallOf(o.parse, taken[j]).value;
        && Asks(o.parse, m, call.ci, call.mi) && r.pid == m.pid && Names(r.body, call.ci, call.mi)
        && (m.messageType.RunspacePoolHostCall? ==> r.messageType.RunspacePoolHostResponse?)
        && (m.messageType.PipelineHostCall? ==> r.messageType.PipelineHostResponse?)
        && Says(r.body, o.host(AskedIn(o, taken[..j]), m), key, givenUp))
  }

  lemma AnswersOnTheWire(o: Outside, first: nat, p: Pool, i: nat) returns (j: nat, n: nat)
    requires Sound(o, first, p) && i < |AnswersIn(p.state.deeds)|
    ensures |RepliesIn(p.state.sent)| == |AnswersIn(p.state.deeds)|
    ensures var a := AnswersIn(p.state.deeds)[i];
      AnswersCall(o, p.taken, j, RepliesIn(p.state.sent)[i], KeyOf(a), a.GivenUp?)
    ensures var a := AnswersIn(p.state.deeds)[i];
      n < |p.state.deeds| && p.state.deeds[n] == Sends(a) && (a.Answered? ==> KeyOf(a) == KeyAfter(o, p.state.deeds[..n]))
  {
    hide Ids, RepliesIn, ReplyAll, SettledIn, LostIn, HeardIn, GrantedIn, ParkedDebts, AllSecret, DebtsIn, KeyMessagesIn,
         RequestsIn, Mishaps, Orderly, Weight, AnswerBody, ContainsSecret, AnswersIn, AllTimely, KeyAfter, Says, Names,
         Asks, CallOf, AskedIn, DebtOf;
    var a := AnswersIn(p.state.deeds)[i];
    ReplyAllAt(AnswersIn(p.state.deeds), i);
    n := AnswerTimely(o, p.state.deeds, i);
    AnswerSettles(p.state.deeds, i);
    j := DebtHasCall(o, p.taken, DebtOf(a));
    DebtOfCall(a);
    CallSays(o.parse, p.taken[j]);
    AnswerSays(a);
  }

  /** An exchange that starts sends the public half of a fresh pair, to the pool, under its name. */
  lemma ExchangeSays(o: Outside, s: State)
    requires Exchange(o, s).1.Ok?
    ensures var s' := Exchange(o, s).0;
      && s'.pair.Some? && o.generate(s.generated) == s'.pair && |s'.sent| == |s.sent| + 1 && s'.sent[..|s.sent|] == s.sent
      && s'.sent[|s.sent|].messageType.PublicKey? && s'.sent[|s.sent|].pid == NIL && s'.sent[|s.sent|].body.Object?
      && Find(s'.sent[|s.sent|].body.props, "PublicKey") == Some(Textual(Str, o.blob(s'.pair.value)))
  {
    FindAt(KeyBody(o.blob(o.generate(s.generated).value)).props, 0);
  }

  lemma DebtOfCall(a: Answer)
    ensures DebtOf(a).call == a.call
  {
  }

  lemma {:induction false} ReplyAllAt(answers: seq<Answer>, i: nat)
    requires i < |answers|
    ensures |ReplyAll(answers)| == |answers| && ReplyAll(answers)[i] == ReplyOf(answers[i])
  {
    hide ReplyOf;
    if i < |answers| - 1 {
      ReplyAllAt(answers[..|answers| - 1], i);
    } else if |answers| > 1 {
      ReplyAllAt(answers[..|answers| - 1], 0);
    }
  }

  /** An answer is a deed, done under the key held at that moment. */
  lemma {:induction false} AnswerTimely(o: Outside, deeds: seq<Deed>, i: nat) returns (n: nat)
    requires AllTimely(o, deeds) && i < |AnswersIn(deeds)|
    ensures n < |deeds| && deeds[n] == Sends(AnswersIn(deeds)[i]) && Timely(o, deeds[..n], deeds[n])
  {
    hide Timely;
    var front, last := deeds[..|deeds| - 1], deeds[|deeds| - 1];
    assert forall k :: 0 <= k < |front| ==> front[..k] == deeds[..k] && front[k] == deeds[k];
    if i < |AnswersIn(front)| {
      n := AnswerTimely(o, front, i);
    } else {
      n := |deeds| - 1;
    }
  }

  // ---- Nothing waits for a key that is there ----

  predicate Flushed(s: State) {
    s.key.Some? ==> s.parked == []
  }

  lemma {:induction false} FlushFlushes(o: Outside, s: State)
    ensures var (s', r) := Flush(o, s); s'.key == s.key && (r.Ok? ==> Flushed(s'))
    decreases |s.parked|
  {
    hide AnswerBody;
    if s.key.Some? && s.parked != [] {
      var (s', r) := Respond(o, s, Answered(s.parked[0].call, s.parked[0].value, s.key));
      if r.Ok? {
        FlushFlushes(o, s'.(parked := s.parked[1..]));
      }
    }
  }

  /** Dealing with a message parks an answer only for want of a key, and a key that comes sends what was parked. */
  lemma DealFlushes(o: Outside, s: State, m: M.Message)
    requires Flushed(s) && Deal(o, s, m).1.Ok?
    ensures Flushed(Deal(o, s, m).0)
  {
    hide Flush, GiveUp, AnswerBody, CallOf, SessionKeyOf, ContainsSecret, KeyBody;
    if m.messageType.EncryptedSessionKey? && s.pair.Some? {
      var heard := Log(s.(pair := None), Hears(m));
      var key := SessionKeyOf(o.parse, o.unwrap, m, s.pair.value);
      FlushFlushes(o, heard.(key := key));
    }
  }

  /** A read that succeeds leaves nothing parked that could have been sent. */
  lemma {:induction false} NextFlushes(o: Outside, p: Pool)
    ensures Next(o, p).1.Ok? ==> Flushed(Next(o, p).0.state)
    decreases |p.incoming|, |p.pending|, 1
  {
    hide Flush, Turn, Flushed;
    FlushFlushes(o, p.state);
    var (s, r) := Flush(o, p.state);
    if r.Ok? {
      TurnFlushes(o, p.(state := s));
    }
  }

  lemma {:induction false} TurnFlushes(o: Outside, p: Pool)
    requires Flushed(p.state)
    ensures Turn(o, p).1.Ok? ==> Flushed(Turn(o, p).0.state)
    decreases |p.incoming|, |p.pending|, 0
  {
    hide Next, Deal, Queue, Flushed;
    if p.pending != [] {
      var m := p.pending[|p.pending| - 1];
      var (q, r) := Take(o, p);
      if r.Ok? {
        DealFlushes(o, p.state, m);
        if r.value.None? {
          NextFlushes(o, q);
        }
      }
    } else if p.incoming != [] {
      var (q, r) := Receive(o, p);
      var p' := p.(incoming := p.incoming[1..]);
      QueueReads(p', if p.incoming[0].Chunk? then p.incoming[0].bytes else []);
      QueueSendsNothing(p', if p.incoming[0].Chunk? then p.incoming[0].bytes else []);
      if r.Ok? && r.value.None? {
        NextFlushes(o, q);
      }
    }
  }

  lemma QueueSendsNothing(p: Pool, bytes: seq<byte>)
    ensures Queue(p, bytes).0.state == p.state
  {
    hide F.Feed, DecodeAll, Reversed;
  }

  /** The answers parked calls get under a key, in the order in which they were parked. */
  function AnswersTo(parked: seq<Parked>, key: Option<C.Cipher>): seq<Answer> {
    if parked == [] then [] else [Answered(parked[0].call, parked[0].value, key)] + AnswersTo(parked[1..], key)
  }

  lemma {:induction false} FlushInOrder(o: Outside, s: State)
    requires s.key.Some? && Flush(o, s).1.Ok?
    ensures AnswersIn(Flush(o, s).0.deeds) == AnswersIn(s.deeds) + AnswersTo(s.parked, s.key)
    decreases |s.parked|
  {
    hide AnswersIn, AnswerBody;
    if s.parked == [] {
      NothingAdded(AnswersIn(s.deeds));
    } else {
      var a := Answered(s.parked[0].call, s.parked[0].value, s.key);
      var (s', r) := Respond(o, s, a);
      DeedSnoc(o, s.deeds, Sends(a));
      FlushInOrder(o, s'.(parked := s.parked[1..]));
      Regroup(AnswersIn(s.deeds), [a], AnswersTo(s.parked[1..], s.key));
    }
  }

  /** A drained transport is taken for a pipeline that completed: of this pool, of no pipeline in particular. */
  lemma DrainedIsCompleted(o: Outside, p: Pool)
    requires p.incoming != [] && p.incoming[0] == Chunk([]) && p.buffer.buffer == [] && p.buffer.table.inFlight == map[]
    ensures var m := M.Message(M.Client, M.PipelineState, o.rpid, NIL, o.completedText);
      Receive(o, p) == (p.(incoming := p.incoming[1..]), Ok(Some(m)))
  {
    hide Queue;
  }

  // ---- Plain messages ----

  /** The messages still to be read, if nothing is wrong with what carries them. */
  function Coming(p: Pool): Option<seq<M.Message>> {
    Upcoming(p.pending, p.incoming, p.buffer)
  }

  /** The first of the upcoming messages was returned, or there was none. */
  predicate Served(coming: seq<M.Message>, r: Result<M.Message, PoolError>, left: Option<seq<M.Message>>) {
    if coming == [] then r == Err(NothingLeft) else r == Ok(coming[0]) && left == Some(coming[1..])
  }

  lemma NothingToFlush(o: Outside, s: State)
    requires s.parked == [] || s.key.None?
    ensures Flush(o, s) == (s, Ok(()))
  {
  }

  /** Of plain messages the next one is returned, none skipped. */
  lemma {:induction false} NextOfPlain(o: Outside, p: Pool)
    requires p.state.parked == [] && Coming(p).Some? && AllPlain(Coming(p).value)
    ensures var (q, r) := Next(o, p); q.state == p.state && Served(Coming(p).value, r, Coming(q))
    decreases |p.incoming|
  {
    hide Upcoming, Flush, F.Feed, DecodeAll, Reversed;
    NothingToFlush(o, p.state);
    if p.pending != [] {
      UpcomingPop(p.pending, p.incoming, p.buffer);
    } else if p.incoming == [] {
      UpcomingNothing(p.buffer);
    } else {
      UpcomingRead(p.incoming, p.buffer);
      var (q, r) := Receive(o, p);
      NextOfPlain(o, q);
    }
  }
}
