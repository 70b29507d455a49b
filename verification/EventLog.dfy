/** The events that the register sends to its informer, and what replaying them yields. */
module EventLog {
  import opened Prelude

  datatype EventType = Added | Modified | Deleted

  /** What an event says about the object set state that it carries. */
  datatype Entry = Entry(kind: EventType, key: Key, generation: nat, resourceVersion: string)

  /** fmt.Sprintf("%d", n). */
  function Decimal(n: nat): string {
    if n < 10 then [Digit(n)] else Decimal(n / 10) + [Digit(n % 10)]
  }

  function Digit(d: nat): char
    requires d < 10
  {
    "0123456789"[d]
  }

  lemma DigitIsInjective(a: nat, b: nat)
    requires a < 10 && b < 10 && Digit(a) == Digit(b)
    ensures a == b
  {
  }

  /** The last digit, and what is before it. */
  function Before(n: nat): string {
    if n < 10 then "" else Decimal(n / 10)
  }

  lemma DecimalParts(n: nat)
    ensures Decimal(n) == Before(n) + [Digit(n % 10)] && (Before(n) == "" <==> n < 10)
  {
  }

  lemma SameParts(m: nat, n: nat)
    requires Decimal(m) == Decimal(n)
    ensures Before(m) == Before(n) && m % 10 == n % 10
  {
    DecimalParts(m);
    DecimalParts(n);
    hide Decimal, Digit, Before;
    var text := Decimal(m);
    assert Before(m) == text[..|text| - 1] && Digit(m % 10) == text[|text| - 1];
    assert Before(n) == text[..|text| - 1] && Digit(n % 10) == text[|text| - 1];
    DigitIsInjective(m % 10, n % 10);
  }

  lemma {:induction false} DecimalIsInjective(m: nat, n: nat)
    requires Decimal(m) == Decimal(n)
    ensures m == n
    decreases m
  {
    hide Decimal, Digit;
    SameParts(m, n);
    DecimalParts(m);
    DecimalParts(n);
    if m < 10 {
    } else {
      DecimalIsInjective(m / 10, n / 10);
    }
  }

  /** The number that a string of digits stands for. */
  function Number(text: string): int {
    if text == "" then 0 else 10 * Number(text[..|text| - 1]) + (text[|text| - 1] as int - '0' as int)
  }

  /** The text is the usual one: digits that read back as the number, without a leading zero. */
  lemma {:induction false} DecimalReadsBack(n: nat)
    ensures Number(Decimal(n)) == n && Decimal(n) != "" && (n > 0 ==> Decimal(n)[0] != '0')
    ensures forall c | c in Decimal(n) :: '0' <= c <= '9'
    decreases n
  {
    var front, last := Before(n), Digit(n % 10);
    DecimalParts(n);
    DigitIsNumber(n % 10);
    assert Decimal(n)[..|Decimal(n)| - 1] == front;
    if n < 10 {
    } else {
      DecimalReadsBack(n / 10);
    }
  }

  lemma DigitIsNumber(d: nat)
    requires d < 10
    ensures Digit(d) as int == '0' as int + d
  {
  }

  /** The generation at which the log leaves `key`, None when it does not exist. */
  function Live(log: seq<Entry>, key: Key): Option<nat> {
    if log == [] then None
    else
      var last := log[|log| - 1];
      if last.key != key then Live(log[..|log| - 1], key)
      else if last.kind == Deleted then None
      else Some(last.generation)
  }

  /** The event is what comes next for a key that stands at `current`. */
  predicate Follows(current: Option<nat>, e: Entry) {
    && e.resourceVersion == Decimal(e.generation)
    && match e.kind
       case Added => current == None && e.generation == 0
       case Modified => current.Some? && e.generation == current.value + 1
       case Deleted => current == Some(e.generation)
  }

  predicate Legal(log: seq<Entry>) {
    log != [] ==> Legal(log[..|log| - 1]) && Follows(Live(log[..|log| - 1], log[|log| - 1].key), log[|log| - 1])
  }

  /** What one more event does to the log. */
  lemma AppendIsLegalIff(log: seq<Entry>, e: Entry)
    ensures Legal(log + [e]) <==> Legal(log) && Follows(Live(log, e.key), e)
    ensures forall k ::
      Live(log + [e], k)
      == if k != e.key then Live(log, k) else if e.kind == Deleted then None else Some(e.generation)
  {
    assert (log + [e])[..|log|] == log;
  }

  lemma LegalAppend(log: seq<Entry>, e: Entry)
    requires Legal(log) && Follows(Live(log, e.key), e)
    ensures Legal(log + [e])
    ensures forall k ::
      Live(log + [e], k)
      == if k != e.key then Live(log, k) else if e.kind == Deleted then None else Some(e.generation)
  {
    AppendIsLegalIff(log, e);
  }

  // ---------------------------------------------------------------- the log of one key

  function About(log: seq<Entry>, key: Key): seq<Entry> {
    if log == [] then []
    else About(log[..|log| - 1], key) + if log[|log| - 1].key == key then [log[|log| - 1]] else []
  }

  /** Added at generation 0, then Modified at 1, 2, 3 and so on up to n. */
  function Lifetime(key: Key, n: nat): seq<Entry> {
    if n == 0 then [Entry(Added, key, 0, Decimal(0))]
    else Lifetime(key, n - 1) + [Entry(Modified, key, n, Decimal(n))]
  }

  /** The i-th event of a lifetime is at generation i. */
  lemma {:induction false} LifetimeAt(key: Key, n: nat, i: nat)
    requires i <= n
    ensures |Lifetime(key, n)| == n + 1
    ensures Lifetime(key, n)[i] == Entry(if i == 0 then Added else Modified, key, i, Decimal(i))
  {
    if n == 0 {
    } else {
      LifetimeAt(key, n - 1, if i < n then i else 0);
    }
  }

  /** Lifetimes that have ended, each by a Deleted at its last generation. */
  function Ended(key: Key, lives: seq<nat>): seq<Entry> {
    if lives == [] then []
    else
      var n := lives[|lives| - 1];
      Ended(key, lives[..|lives| - 1]) + Lifetime(key, n) + [Entry(Deleted, key, n, Decimal(n))]
  }

  lemma EndedOnce(key: Key, lives: seq<nat>, n: nat)
    ensures Ended(key, lives + [n]) == Ended(key, lives) + Lifetime(key, n) + [Entry(Deleted, key, n, Decimal(n))]
  {
    assert (lives + [n])[..|lives|] == lives;
  }

  /** Per key a legal log is a sequence of ended lifetimes, followed by the current one if the key lives. */
  lemma {:induction false} LogIsLifetimes(log: seq<Entry>, key: Key) returns (lives: seq<nat>)
    requires Legal(log)
    ensures About(log, key)
         == Ended(key, lives) + match Live(log, key) case None => [] case Some(n) => Lifetime(key, n)
  {
    hide Ended, Decimal;
    if log == [] {
      lives := [];
      NothingEnded(key);
    } else {
      var e := log[|log| - 1];
      lives := LogIsLifetimes(log[..|log| - 1], key);
      if e.key == key {
        match e.kind
        case Added =>
        case Modified =>
          assert Lifetime(key, e.generation) == Lifetime(key, e.generation - 1) + [e];
        case Deleted =>
          EndedOnce(key, lives, e.generation);
          lives := lives + [e.generation];
      }
    }
  }

  lemma NothingEnded(key: Key)
    ensures Ended(key, []) == []
  {
  }
}
