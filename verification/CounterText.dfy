/** What the counter shows: `nts_counter_dispatch_event` of examples/counter/app.c, over any
    sequence of deliveries. */
module CounterText {
  import opened Abi
  import opened Bridge
  import opened Counters

  const TEXT_SIZE: nat := 64

  function Digit(d: nat): char
    requires d < 10
  {
    ('0' as nat + d) as char
  }

  function Decimal(n: nat): string {
    if n < 10 then [Digit(n)] else Decimal(n / 10) + [Digit(n % 10)]
  }

  predicate IsDigit(c: char) {
    '0' <= c <= '9'
  }

  function ValueOf(c: char): nat
    requires IsDigit(c)
  {
    c as nat - '0' as nat
  }

  // Reading a decimal number back.
  function Parse(s: string): nat
    requires AllDigits(s)
  {
    if s == [] then 0 else 10 * Parse(s[..|s| - 1]) + ValueOf(s[|s| - 1])
  }

  predicate AllDigits(s: string) {
    forall i :: 0 <= i < |s| ==> IsDigit(s[i])
  }

  lemma ParseMore(s: string, d: nat)
    requires AllDigits(s) && d < 10
    ensures AllDigits(s + [Digit(d)]) && Parse(s + [Digit(d)]) == 10 * Parse(s) + d
  {
    assert (s + [Digit(d)])[..|s|] == s;
  }

  lemma {:induction false} ParseDecimal(n: nat)
    ensures AllDigits(Decimal(n)) && Parse(Decimal(n)) == n
  {
    if n < 10 {
      ParseMore([], n);
      assert [] + [Digit(n)] == [Digit(n)];
      assert Parse([]) == 0;
    } else {
      ParseDecimal(n / 10);
      ParseMore(Decimal(n / 10), n % 10);
    }
  }

  function Pow10(k: nat): nat {
    if k == 0 then 1 else 10 * Pow10(k - 1)
  }

  lemma {:induction false} DecimalLength(n: nat, k: nat)
    requires k > 0 && n < Pow10(k)
    ensures 1 <= |Decimal(n)| <= k
  {
    if n < 10 {
    } else {
      assert k > 1 by { assert Pow10(1) == 10 * Pow10(0) == 10; }
      assert n / 10 < Pow10(k - 1);
      DecimalLength(n / 10, k - 1);
    }
  }

  function CountText(count: nat): string {
    "Count: " + Decimal(count)
  }

  // snprintf into the 64-byte buffer never truncates a 32-bit count.
  lemma CountTextFits(count: nat)
    requires count <= UINT32_MAX
    ensures |CountText(count)| <= 17 < TEXT_SIZE
    ensures CountText(count)[..7] == "Count: "
    ensures AllDigits(CountText(count)[7..]) && Parse(CountText(count)[7..]) == count
  {
    assert Pow10(5) == 100000;
    assert Pow10(10) == 10000000000 by {
      assert Pow10(6) == 1000000 && Pow10(8) == 100 * Pow10(6);
      assert Pow10(9) == 10 * Pow10(8);
    }
    DecimalLength(count, 10);
    ParseDecimal(count);
    assert CountText(count)[7..] == Decimal(count);
  }

  // The client and the text it last wrote to its button.
  datatype Display = Display(counter: Counter, shown: string)

  // One event: whether it is for this client (its realm, its callback, realm alive), and
  // whether the text update would succeed.
  datatype Delivery = Delivery(accepted: bool, updates: bool)

  function Deliver(d: Display, e: Delivery): Display {
    if !d.counter.active || d.counter.failed || !e.accepted then d
    else
      var counter := d.counter.(count := (d.counter.count + 1) % (UINT32_MAX + 1));
      var text := CountText(counter.count);
      if |text| >= TEXT_SIZE || !e.updates then Display(counter.(failed := true), d.shown)
      else Display(counter, text)
  }

  // The text that the next event writes.
  function NextText(c: Counter): string {
    CountText((c.count + 1) % (UINT32_MAX + 1))
  }

  // nts_counter_dispatch_event as the dispatcher of a realm, with what it does to the page.
  datatype Handled = Handled(site: Site, display: Display, delivery: Delivery)

  ghost function HandleEvent(s: Site, rid: nat, d: Display, token: CallbackToken): Handled {
    var accepted := d.counter.realm == Some(rid) && token == CLICK_CALLBACK && IsAlive(s.realm, true);
    var text := NextText(d.counter);
    var r := Perform(s, rid, true, SetText(d.counter.button, text));
    var e := Delivery(accepted, r.status == Ok);
    var writes := d.counter.active && !d.counter.failed && accepted && |text| < TEXT_SIZE;
    Handled(if writes then r.site else s, Deliver(d, e), e)
  }

  function DeliverAll(d: Display, es: seq<Delivery>): Display {
    if es == [] then d else Deliver(DeliverAll(d, es[..|es| - 1]), es[|es| - 1])
  }

  function Accepted(es: seq<Delivery>): nat {
    if es == [] then 0 else Accepted(es[..|es| - 1]) + if es[|es| - 1].accepted then 1 else 0
  }

  // As left by a successful start.
  predicate JustStarted(d: Display) {
    d.counter.active && !d.counter.failed && d.counter.count == 0 && d.shown == CountText(0)
  }

  // As long as no update failed, the text gives the number of accepted events, modulo 2^32.
  lemma {:induction false} ShowsCount(d: Display, es: seq<Delivery>)
    requires JustStarted(d)
    requires forall k :: 0 <= k < |es| && es[k].accepted ==> es[k].updates
    ensures var d' := DeliverAll(d, es);
            && d'.counter.active && !d'.counter.failed
            && d'.counter.count == Accepted(es) % (UINT32_MAX + 1)
            && d'.shown == CountText(d'.counter.count)
  {
    hide Decimal;
    if es == [] {
    } else {
      var n := |es| - 1;
      ShowsCount(d, es[..n]);
      var before := DeliverAll(d, es[..n]);
      if es[n].accepted {
        WrapStep(Accepted(es[..n]));
        CountTextFits((Accepted(es[..n]) + 1) % (UINT32_MAX + 1));
      }
    }
  }

  lemma WrapStep(a: nat)
    ensures (a % (UINT32_MAX + 1) + 1) % (UINT32_MAX + 1) == (a + 1) % (UINT32_MAX + 1)
  {
  }

  // From the first failed update on, count and text stay as they are.
  lemma {:induction false} FrozenAfterFailure(d: Display, es: seq<Delivery>)
    requires d.counter.failed
    ensures DeliverAll(d, es) == d
  {
    if es == [] {
    } else {
      FrozenAfterFailure(d, es[..|es| - 1]);
    }
  }

  lemma {:induction false} DeliverSplit(d: Display, es: seq<Delivery>, fs: seq<Delivery>)
    ensures DeliverAll(d, es + fs) == DeliverAll(DeliverAll(d, es), fs)
  {
    if fs == [] {
      assert es + fs == es;
    } else {
      DeliverSplit(d, es, fs[..|fs| - 1]);
      assert (es + fs)[..|es + fs| - 1] == es + fs[..|fs| - 1];
    }
  }

  // When the first update to fail is the one after n good ones, the counter ends one ahead
  // of the text, for every later event as well.
  lemma FirstFailure(d: Display, es: seq<Delivery>, later: seq<Delivery>)
    requires JustStarted(d)
    requires forall k :: 0 <= k < |es| && es[k].accepted ==> es[k].updates
    ensures var n := Accepted(es);
            var d' := DeliverAll(d, es + [Delivery(true, false)] + later);
            && d'.counter.failed
            && d'.counter.count == (n + 1) % (UINT32_MAX + 1)
            && d'.shown == CountText(n % (UINT32_MAX + 1))
  {
    var bad := Delivery(true, false);
    ShowsCount(d, es);
    DeliverSplit(d, es + [bad], later);
    assert (es + [bad])[..|es|] == es;
    var f := DeliverAll(d, es + [bad]);
    WrapStep(Accepted(es));
    FrozenAfterFailure(f, later);
  }
}
