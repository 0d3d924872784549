/** What a committed update's JSON tree delivers, consumes and creates. */
module DeliveryTree {
  import opened Common
  import opened Json

  /** An amount in units of 1e-10. */
  datatype Leg = Leg(sender: Option<string>, receiver: string, amount: int, instrumentOk: bool, agreement: Option<string>)

  /** The configured asset, with JavaScript's reading of a value as a finite number and as a string. */
  datatype Config = Config(
    instrumentId: string,
    adminParty: string,
    holdingTemplateId: string,
    number: Json -> Option<int>,
    text: Option<Json> -> string
  )

  predicate IsObject(o: Option<Json>) {
    o.Some? && o.value.Branches()
  }

  function AsString(o: Option<Json>): Option<string> {
    if o.Some? && o.value.Str? then Some(o.value.s) else None
  }

  function Amount(o: Option<Json>, c: Config): (a: Option<int>)
    ensures a.Some? ==> a.value > 0
  {
    if o.Some? && c.number(o.value).Some? && c.number(o.value).value > 0 then c.number(o.value) else None
  }

  /** A party given bare or as an `owner` record. */
  function Party(o: Option<Json>): Option<string> {
    AsString(if IsObject(o) then PickIn(o, ["owner"]) else o)
  }

  predicate InstrumentMatches(id: Option<Json>, c: Config) {
    if id.None? || id.value.Null? then false
    else if id.value.Str? then id.value.s == c.instrumentId
    else
      var admin := PickIn(id, ["admin"]);
      && (admin.None? || admin.value.Null? || c.text(admin) == c.adminParty)
      && c.text(PickIn(id, ["id", "instrumentId"])) == c.instrumentId
  }

  function TransferSpecLeg(t: Option<Json>, c: Config): Option<Leg> {
    if !IsObject(t) then None
    else
      var amount := Amount(PickIn(t, ["amount"]), c);
      var sender := Party(PickIn(t, ["sender"]));
      var receiver := Party(PickIn(t, ["receiver"]));
      if amount.None? || sender.None? || receiver.None? then None
      else
        var values := PickIn(PickIn(t, ["meta"]), ["values"]);
        Some(Leg(sender, receiver.value, amount.value,
                 InstrumentMatches(PickIn(t, ["instrument_id", "instrumentId"]), c),
                 AsString(PickIn(values, ["cantonstreams.dev/agreement"]))))
  }

  function HoldingCreditLeg(node: Json, c: Config): Option<Leg> {
    var tid := AsString(node.Pick(["template_id", "templateId"]));
    var args := node.Pick(["create_arguments", "createArguments", "create_argument"]);
    if tid.None? || TemplateKey(tid.value) != TemplateKey(c.holdingTemplateId) || !IsObject(args) then None
    else
      var owner := AsString(PickIn(args, ["owner"]));
      var field := PickIn(args, ["amount"]);
      var amount := Amount(if IsObject(field) then PickIn(field, ["initialAmount", "initial_amount"]) else field, c);
      if owner.None? || amount.None? then None
      else Some(Leg(None, owner.value, amount.value, true, None))
  }

  /** The legs one object states by itself: its transfer specification, and the holding it creates. */
  function OwnLegs(node: Json, c: Config): seq<Leg> {
    var spec := TransferSpecLeg(node.Get("transfer"), c);
    var holding := HoldingCreditLeg(node, c);
    (if spec.Some? then [spec.value] else []) + (if holding.Some? then [holding.value] else [])
  }

  // ----- what a leg says of the object that states it -----

  /** A value that names party p: the party itself, or a record whose owner it is. */
  ghost predicate IsParty(v: Json, p: string) {
    v == Str(p) || (v.Branches() && Field(v, "owner", Str(p)))
  }

  /** t authorizes a transfer of n from p to r. */
  ghost predicate Authorizes(t: Json, p: string, r: string, n: int, c: Config) {
    exists from, to, a ::
      && Field(t, "sender", from) && IsParty(from, p)
      && Field(t, "receiver", to) && IsParty(to, r)
      && Field(t, "amount", a) && c.number(a) == Some(n) && n > 0
  }

  /** v is the configured instrument: its id, or a record of that id whose admin, if it names one, is the configured party. */
  ghost predicate IsInstrument(v: Json, c: Config) {
    || v == Str(c.instrumentId)
    || (!v.Str? && !v.Null?
        && (forall a :: Field(v, "admin", a) && !a.Null? ==> c.text(Some(a)) == c.adminParty)
        && exists x :: Chosen(v, ["id", "instrumentId"], x) && c.text(x) == c.instrumentId)
  }

  ghost predicate InInstrument(t: Json, c: Config) {
    exists v :: Chosen(t, ["instrument_id", "instrumentId"], Some(v)) && IsInstrument(v, c)
  }

  /** t carries the agreement's reference under meta.values. */
  ghost predicate Tagged(t: Json, ref: string) {
    exists m, vs :: Field(t, "meta", m) && Field(m, "values", vs) && Field(vs, "cantonstreams.dev/agreement", Str(ref))
  }

  lemma PartyIs(o: Option<Json>, p: string)
    ensures Party(o) == Some(p) <==> o.Some? && IsParty(o.value, p)
  {
    if IsObject(o) {
      GetIs(o.value, "owner");
      OnlyPick(o.value, "owner");
    }
  }

  lemma OnlyPick(j: Json, key: string)
    ensures j.Pick([key]) == j.Get(key)
  {
    assert [key][1..] == [];
    assert j.Pick([]) == None;
  }

  lemma InstrumentIs(v: Json, c: Config)
    ensures InstrumentMatches(Some(v), c) <==> IsInstrument(v, c)
  {
    GetIs(v, "admin");
    OnlyPick(v, "admin");
    var x := v.Pick(["id", "instrumentId"]);
    forall y ensures Chosen(v, ["id", "instrumentId"], y) <==> x == y {
      PickIs(v, ["id", "instrumentId"], y);
    }
  }

  lemma InstrumentOkIs(t: Json, c: Config)
    ensures InstrumentMatches(t.Pick(["instrument_id", "instrumentId"]), c) <==> InInstrument(t, c)
  {
    var x := t.Pick(["instrument_id", "instrumentId"]);
    forall y ensures Chosen(t, ["instrument_id", "instrumentId"], y) <==> x == y {
      PickIs(t, ["instrument_id", "instrumentId"], y);
    }
    if x.Some? {
      InstrumentIs(x.value, c);
    }
  }

  lemma TagIs(t: Json, ref: string)
    ensures AsString(PickIn(PickIn(PickIn(Some(t), ["meta"]), ["values"]), ["cantonstreams.dev/agreement"])) == Some(ref) <==> Tagged(t, ref)
  {
    GetIs(t, "meta");
    OnlyPick(t, "meta");
    var m := t.Get("meta");
    if m.Some? {
      GetIs(m.value, "values");
      OnlyPick(m.value, "values");
      var vs := m.value.Get("values");
      if vs.Some? {
        GetIs(vs.value, "cantonstreams.dev/agreement");
        OnlyPick(vs.value, "cantonstreams.dev/agreement");
      }
    }
  }

  /**
   * A transfer specification yields the leg of exactly the transfer it authorizes, in that direction and for that
   * amount, with the instrument's match and the agreement's tag; what authorizes none yields none.
   */
  lemma SpecLegIs(t: Json, c: Config)
    ensures var leg := TransferSpecLeg(Some(t), c);
            && (forall p, r, n :: leg.Some? && leg.value.sender == Some(p) && leg.value.receiver == r && leg.value.amount == n
                                  <==> Authorizes(t, p, r, n, c))
            && (leg.Some? ==> leg.value.sender.Some? && (leg.value.instrumentOk <==> InInstrument(t, c)))
            && (leg.Some? ==> forall ref :: leg.value.agreement == Some(ref) <==> Tagged(t, ref))
  {
    var leg := TransferSpecLeg(Some(t), c);
    forall p, r, n ensures leg.Some? && leg.value.sender == Some(p) && leg.value.receiver == r && leg.value.amount == n
                           <==> Authorizes(t, p, r, n, c) {
      SpecLegAuthorizes(t, c, p, r, n);
    }
    InstrumentOkIs(t, c);
    forall ref ensures leg.Some? ==> (leg.value.agreement == Some(ref) <==> Tagged(t, ref)) {
      TagIs(t, ref);
    }
  }

  lemma SpecLegAuthorizes(t: Json, c: Config, p: string, r: string, n: int)
    ensures var leg := TransferSpecLeg(Some(t), c);
            leg.Some? && leg.value.sender == Some(p) && leg.value.receiver == r && leg.value.amount == n
            <==> Authorizes(t, p, r, n, c)
  {
    hide Field, InstrumentMatches, IsParty, Party;
    GetIs(t, "sender");
    GetIs(t, "receiver");
    GetIs(t, "amount");
    OnlyPick(t, "sender");
    OnlyPick(t, "receiver");
    OnlyPick(t, "amount");
    PartyIs(t.Get("sender"), p);
    PartyIs(t.Get("receiver"), r);
    if Authorizes(t, p, r, n, c) {
      var from, to, a :| Field(t, "sender", from) && IsParty(from, p) && Field(t, "receiver", to) && IsParty(to, r)
                         && Field(t, "amount", a) && c.number(a) == Some(n) && n > 0;
      assert t.Get("sender") == Some(from) && t.Get("receiver") == Some(to) && t.Get("amount") == Some(a);
      FieldOfObject(t, "sender", from);
    }
  }

  lemma FieldOfObject(t: Json, key: string, v: Json)
    requires Field(t, key, v)
    ensures t.Obj?
  {
  }

  /** A created holding of the configured template, owned by p, worth n. */
  ghost predicate Holding(node: Json, p: string, n: int, c: Config) {
    exists tid, args, a ::
      && Chosen(node, ["template_id", "templateId"], Some(Str(tid))) && TemplateKey(tid) == TemplateKey(c.holdingTemplateId)
      && Chosen(node, ["create_arguments", "createArguments", "create_argument"], Some(args)) && args.Branches()
      && Field(args, "owner", Str(p)) && AmountField(args, a) && c.number(a) == Some(n) && n > 0
  }

  /** a is the amount of a holding's arguments, given bare or as a record of its initial amount. */
  ghost predicate AmountField(args: Json, a: Json) {
    exists v :: Field(args, "amount", v) &&
      if v.Branches() then Chosen(v, ["initialAmount", "initial_amount"], Some(a)) else a == v
  }

  lemma AmountFieldIs(args: Json, a: Json)
    ensures var field := PickIn(Some(args), ["amount"]);
            (if IsObject(field) then PickIn(field, ["initialAmount", "initial_amount"]) else field) == Some(a) <==> AmountField(args, a)
  {
    GetIs(args, "amount");
    OnlyPick(args, "amount");
    var field := args.Get("amount");
    if IsObject(field) {
      PickIs(field.value, ["initialAmount", "initial_amount"], Some(a));
    }
  }

  /** A created holding credits exactly its owner with exactly its amount, and names no sender. */
  lemma HoldingLegIs(node: Json, c: Config, p: string, n: int)
    ensures HoldingCreditLeg(node, c) == Some(Leg(None, p, n, true, None)) <==> Holding(node, p, n, c)
    ensures HoldingCreditLeg(node, c).Some? ==>
              HoldingCreditLeg(node, c) == Some(Leg(None, HoldingCreditLeg(node, c).value.receiver, HoldingCreditLeg(node, c).value.amount, true, None))
  {
    hide TemplateKey, Field;
    var tid := node.Pick(["template_id", "templateId"]);
    var args := node.Pick(["create_arguments", "createArguments", "create_argument"]);
    forall x ensures Chosen(node, ["template_id", "templateId"], x) <==> tid == x {
      PickIs(node, ["template_id", "templateId"], x);
    }
    forall x ensures Chosen(node, ["create_arguments", "createArguments", "create_argument"], x) <==> args == x {
      PickIs(node, ["create_arguments", "createArguments", "create_argument"], x);
    }
    hide Chosen;
    if args.Some? {
      GetIs(args.value, "owner");
      OnlyPick(args.value, "owner");
      forall a ensures var field := PickIn(args, ["amount"]);
                       (if IsObject(field) then PickIn(field, ["initialAmount", "initial_amount"]) else field) == Some(a)
                       <==> AmountField(args.value, a) {
        AmountFieldIs(args.value, a);
      }
    }
  }

  // ----- template names -----

  function Colons(s: string): nat {
    if |s| == 0 then 0 else (if s[0] == ':' then 1 else 0) + Colons(s[1..])
  }

  /** The last two segments of a template id. */
  function TemplateKey(id: string): string {
    if Colons(id) <= 1 then id else TemplateKey(id[1..])
  }

  /** Two ids name the same template exactly when module and entity agree, whatever package qualifies them. */
  lemma TemplateKeyIgnoresPackage(pkg: string, mod: string, entity: string, pkg': string, mod': string, entity': string)
    requires Colons(mod) == 0 && Colons(entity) == 0 && Colons(mod') == 0 && Colons(entity') == 0
    ensures TemplateKey(pkg + ":" + (mod + ":" + entity)) == TemplateKey(pkg' + ":" + (mod' + ":" + entity'))
            <==> mod == mod' && entity == entity'
  {
    hide Colons, TemplateKey;
    KeyOf(pkg, mod, entity);
    KeyOf(pkg', mod', entity');
    if mod + ":" + entity == mod' + ":" + entity' {
      SplitOnce(mod, entity, mod', entity');
    }
  }

  lemma {:induction false} ColonsAppend(s: string, t: string)
    ensures Colons(s + t) == Colons(s) + Colons(t)
  {
    if |s| == 0 {
      assert s + t == t;
    } else {
      assert (s + t)[1..] == s[1..] + t;
      ColonsAppend(s[1..], t);
    }
  }

  lemma {:induction false} KeyOf(pkg: string, mod: string, entity: string)
    requires Colons(mod) == 0 && Colons(entity) == 0
    ensures TemplateKey(pkg + ":" + (mod + ":" + entity)) == mod + ":" + entity
  {
    var tail := mod + ":" + entity;
    var id := pkg + ":" + tail;
    ColonsAppend(mod + ":", entity);
    ColonsAppend(mod, ":");
    assert id == pkg + (":" + tail);
    ColonsAppend(":", tail);
    ColonsAppend(pkg, ":" + tail);
    if |pkg| == 0 {
      assert id[1..] == tail;
    } else {
      assert id[1..] == pkg[1..] + ":" + tail;
      KeyOf(pkg[1..], mod, entity);
    }
  }

  lemma {:induction false} SplitOnce(a: string, b: string, a': string, b': string)
    requires Colons(a) == 0 && Colons(a') == 0
    requires a + ":" + b == a' + ":" + b'
    ensures a == a' && b == b'
  {
    var s := a + ":" + b;
    if |a| == 0 || |a'| == 0 {
      assert s[0] == ':';
      assert a == a' == "";
      assert s[1..] == b && s[1..] == b';
    } else {
      assert a[0] == s[0] == a'[0];
      assert s[1..] == a[1..] + ":" + b && s[1..] == a'[1..] + ":" + b';
      SplitOnce(a[1..], b, a'[1..], b');
      assert a == [a[0]] + a[1..] && a' == [a'[0]] + a'[1..];
    }
  }

  // ----- what a tree delivers -----

  function LegsOf(nodes: seq<Json>, c: Config): seq<Leg> {
    if |nodes| == 0 then [] else OwnLegs(nodes[0], c) + LegsOf(nodes[1..], c)
  }

  /** The legs of a tree by structural recursion. */
  function LegBag(j: Json, c: Config): multiset<Leg>
    decreases j
  {
    (if j.Obj? then multiset(OwnLegs(j, c)) else multiset{}) + (if j.Branches() then LegBags(j.items, c) else multiset{})
  }

  function LegBags(js: seq<Json>, c: Config): multiset<Leg>
    decreases js
  {
    if |js| == 0 then multiset{} else LegBags(js[..|js| - 1], c) + LegBag(js[|js| - 1], c)
  }

  lemma {:induction false} LegsAppend(xs: seq<Json>, ys: seq<Json>, c: Config)
    ensures LegsOf(xs + ys, c) == LegsOf(xs, c) + LegsOf(ys, c)
  {
    if |xs| == 0 {
      assert xs + ys == ys;
    } else {
      assert (xs + ys)[1..] == xs[1..] + ys;
      LegsAppend(xs[1..], ys, c);
    }
  }

  /** The walk's order loses and invents nothing. */
  lemma {:induction false} WalkedLegs(j: Json, c: Config)
    ensures multiset(LegsOf(Visit(j), c)) == LegBag(j, c)
    decreases j
  {
    if j.Branches() {
      WalkedLegsAll(j.items, c);
      LegsAppend(if j.Obj? then [j] else [], VisitAll(j.items), c);
      assert j.Obj? ==> LegsOf([j], c) == OwnLegs(j, c);
    }
  }

  lemma {:induction false} WalkedLegsAll(js: seq<Json>, c: Config)
    ensures multiset(LegsOf(VisitAll(js), c)) == LegBags(js, c)
    decreases js
  {
    if |js| > 0 {
      var n := |js| - 1;
      WalkedLegs(js[n], c);
      WalkedLegsAll(js[..n], c);
      LegsAppend(Visit(js[n]), VisitAll(js[..n]), c);
    }
  }

  lemma {:induction false} LegInNode(nodes: seq<Json>, leg: Leg, c: Config)
    ensures leg in LegsOf(nodes, c) <==> exists i :: 0 <= i < |nodes| && leg in OwnLegs(nodes[i], c)
  {
    if |nodes| > 0 {
      LegInNode(nodes[1..], leg, c);
      assert forall i :: 1 <= i < |nodes| ==> nodes[i] == nodes[1..][i - 1];
    }
  }

  /** Some object of the tree states this leg. */
  ghost predicate States(root: Json, leg: Leg, c: Config) {
    exists o :: Holds(root, o) && leg in OwnLegs(o, c)
  }

  lemma LegsAreStated(root: Json, leg: Leg, c: Config)
    ensures leg in LegBag(root, c) <==> States(root, leg, c)
  {
    var nodes := Visit(root);
    WalkedLegs(root, c);
    LegInNode(nodes, leg, c);
    assert leg in LegBag(root, c) <==> leg in multiset(LegsOf(nodes, c));
    if leg in LegBag(root, c) {
      var i :| 0 <= i < |nodes| && leg in OwnLegs(nodes[i], c);
      VisitMeetsAll(root, nodes[i]);
    }
    if States(root, leg, c) {
      var o :| Holds(root, o) && leg in OwnLegs(o, c);
      VisitMeetsAll(root, o);
    }
  }

  /** One turn of the walk: the popped object's own legs, then those of what is left on the stack. */
  lemma CollectStep(stack: seq<Json>, c: Config)
    requires |stack| > 0
    ensures var n := |stack| - 1;
            var pushed := if stack[n].Branches() then stack[..n] + stack[n].items else stack[..n];
            && Sizes(pushed) < Sizes(stack)
            && LegsOf(VisitAll(stack), c) == (if stack[n].Obj? then OwnLegs(stack[n], c) else []) + LegsOf(VisitAll(pushed), c)
  {
    var n := |stack| - 1;
    var pushed := if stack[n].Branches() then stack[..n] + stack[n].items else stack[..n];
    WalkStep(stack);
    hide OwnLegs, Visit, VisitAll, Sizes;
    if stack[n].Obj? {
      LegsAppend([stack[n]], VisitAll(pushed), c);
      assert LegsOf([stack[n]], c) == OwnLegs(stack[n], c) + LegsOf([], c);
    } else {
      assert VisitAll(stack) == VisitAll(pushed);
    }
  }

  /** Every delivery leg of an update, wherever it appears; text that is not JSON has none. */
  method CollectDeliveryLegs(body: Option<Json>, c: Config) returns (legs: seq<Leg>)
    ensures multiset(legs) == if body.None? then multiset{} else LegBag(body.value, c)
  {
    hide OwnLegs, LegBag, Visit, VisitAll, LegsOf, Sizes;
    legs := [];
    if body.None? {
      return;
    }
    var stack := [body.value];
    WalkFromRoot(body.value);
    while |stack| > 0
      invariant legs + LegsOf(VisitAll(stack), c) == LegsOf(Visit(body.value), c)
      decreases Sizes(stack)
    {
      CollectStep(stack, c);
      var node := stack[|stack| - 1];
      stack := stack[..|stack| - 1];
      if node.Branches() {
        if node.Obj? {
          legs := legs + OwnLegs(node, c);
        }
        stack := stack + node.items;
      }
    }
    NothingLeft(c);
    WalkedLegs(body.value, c);
  }

  lemma NothingLeft(c: Config)
    ensures LegsOf(VisitAll([]), c) == []
  {
  }

  /** What a caller expects delivered; an empty agreement reference asks for none. */
  datatype Expected = Expected(sender: string, receiver: string, minAmount: int, agreementRef: string)

  /** 1e-9, in units of 1e-10. */
  const TOLERANCE: int := 10

  predicate Meets(leg: Leg, e: Expected) {
    && leg.instrumentOk
    && leg.sender == Some(e.sender) && leg.receiver == e.receiver
    && leg.amount + TOLERANCE >= e.minAmount
    && (e.agreementRef == "" || leg.agreement == Some(e.agreementRef))
  }

  /**
   * Some object of the tree authorizes the expected transfer of n: from the sender, to the receiver, in the
   * configured instrument, under the agreement if one is asked for, and short of the minimum by at most 1e-9.
   */
  ghost predicate Delivers(root: Json, c: Config, e: Expected, n: int) {
    exists o, t ::
      && Holds(root, o) && Field(o, "transfer", t)
      && Authorizes(t, e.sender, e.receiver, n, c) && InInstrument(t, c)
      && (e.agreementRef == "" || Tagged(t, e.agreementRef)) && n + 10 >= e.minAmount
  }

  lemma NodeDelivers(node: Json, c: Config, e: Expected, n: int)
    requires node.Obj?
    ensures (exists leg :: leg in OwnLegs(node, c) && Meets(leg, e) && leg.amount == n)
            <==> exists t :: Field(node, "transfer", t) && Authorizes(t, e.sender, e.receiver, n, c) && InInstrument(t, c)
                             && (e.agreementRef == "" || Tagged(t, e.agreementRef)) && n + 10 >= e.minAmount
  {
    GetIs(node, "transfer");
    HoldingNamesNoSender(node, c);
    var t := node.Get("transfer");
    if t.Some? {
      SpecLegIs(t.value, c);
    }
    hide TransferSpecLeg, HoldingCreditLeg, Field, Authorizes, InInstrument, Tagged;
    var spec := TransferSpecLeg(t, c);
    assert t.None? ==> spec.None? by {
      NoSpecNoLeg(c);
    }
    if spec.Some? && Meets(spec.value, e) && spec.value.amount == n {
      assert spec.value in OwnLegs(node, c);
      assert Field(node, "transfer", t.value);
    }
  }

  lemma NoSpecNoLeg(c: Config)
    ensures TransferSpecLeg(None, c).None?
  {
  }

  lemma HoldingNamesNoSender(node: Json, c: Config)
    ensures HoldingCreditLeg(node, c).Some? ==> HoldingCreditLeg(node, c).value.sender.None?
  {
  }

  lemma TreeDelivers(root: Json, c: Config, e: Expected, n: int)
    ensures (exists leg :: States(root, leg, c) && Meets(leg, e) && leg.amount == n) <==> Delivers(root, c, e, n)
  {
    hide OwnLegs, Meets, Authorizes, InInstrument, Tagged, Field;
    forall o: Json | o.Obj? ensures (exists leg :: leg in OwnLegs(o, c) && Meets(leg, e) && leg.amount == n)
                              <==> exists t :: Field(o, "transfer", t) && Authorizes(t, e.sender, e.receiver, n, c) && InInstrument(t, c)
                                               && (e.agreementRef == "" || Tagged(t, e.agreementRef)) && n + 10 >= e.minAmount {
      NodeDelivers(o, c, e, n);
    }
    if exists leg :: States(root, leg, c) && Meets(leg, e) && leg.amount == n {
      var leg :| States(root, leg, c) && Meets(leg, e) && leg.amount == n;
      var o :| Holds(root, o) && leg in OwnLegs(o, c);
      assert exists l :: l in OwnLegs(o, c) && Meets(l, e) && l.amount == n;
    }
    if Delivers(root, c, e, n) {
      var o, t :| Holds(root, o) && Field(o, "transfer", t) && Authorizes(t, e.sender, e.receiver, n, c) && InInstrument(t, c)
                  && (e.agreementRef == "" || Tagged(t, e.agreementRef)) && n + 10 >= e.minAmount;
      var leg :| leg in OwnLegs(o, c) && Meets(leg, e) && leg.amount == n;
      assert States(root, leg, c);
    }
  }

  /** The amount of the largest expected transfer anywhere in the tree, or None exactly when there is none. */
  method VerifiedDelivery(body: Option<Json>, c: Config, e: Expected) returns (best: Option<int>)
    ensures best.None? <==> body.None? || forall n :: !Delivers(body.value, c, e, n)
    ensures best.Some? ==> Delivers(body.value, c, e, best.value) && forall n :: Delivers(body.value, c, e, n) ==> n <= best.value
  {
    best := None;
    var legs := CollectDeliveryLegs(body, c);
    hide Meets, Delivers, States, LegBag;
    for i := 0 to |legs|
      invariant best.None? <==> forall j :: 0 <= j < i ==> !Meets(legs[j], e)
      invariant best.Some? ==> exists j :: 0 <= j < i && Meets(legs[j], e) && legs[j].amount == best.value
      invariant best.Some? ==> forall j :: 0 <= j < i && Meets(legs[j], e) ==> legs[j].amount <= best.value
    {
      if Meets(legs[i], e) && (best.None? || legs[i].amount > best.value) {
        best := Some(legs[i].amount);
      }
    }
    if body.Some? {
      forall n ensures Delivers(body.value, c, e, n) <==> exists i :: 0 <= i < |legs| && Meets(legs[i], e) && legs[i].amount == n {
        DeliveredAmong(body.value, c, e, n, legs);
      }
      assert best.Some? ==> Delivers(body.value, c, e, best.value);
    } else {
      assert |legs| == |multiset(legs)|;
    }
  }

  lemma DeliveredAmong(root: Json, c: Config, e: Expected, n: int, legs: seq<Leg>)
    requires multiset(legs) == LegBag(root, c)
    ensures Delivers(root, c, e, n) <==> exists i :: 0 <= i < |legs| && Meets(legs[i], e) && legs[i].amount == n
  {
    hide Meets, Delivers, States, LegBag;
    TreeDelivers(root, c, e, n);
    forall leg ensures States(root, leg, c) <==> leg in legs {
      LegsAreStated(root, leg, c);
      assert leg in legs <==> leg in multiset(legs);
    }
    if i :| 0 <= i < |legs| && Meets(legs[i], e) && legs[i].amount == n {
      assert legs[i] in legs;
    }
  }

  /** A specification authorizes one transfer at most. */
  lemma AuthorizesOne(t: Json, c: Config, p: string, r: string, n: int, p': string, r': string, n': int)
    requires Authorizes(t, p, r, n, c) && Authorizes(t, p', r', n', c)
    ensures p == p' && r == r' && n == n'
  {
    SpecLegIs(t, c);
  }

  /** So a tree whose every transfer goes one way proves nothing of the other, whatever is asked of it. */
  lemma ReversedIsNoDelivery(root: Json, c: Config, e: Expected, n: int)
    requires e.sender != e.receiver
    requires forall o, t :: Holds(root, o) && Field(o, "transfer", t) ==> exists m :: Authorizes(t, e.receiver, e.sender, m, c)
    ensures !Delivers(root, c, e, n)
  {
    if Delivers(root, c, e, n) {
      var o, t :| Holds(root, o) && Field(o, "transfer", t) && Authorizes(t, e.sender, e.receiver, n, c);
      var m :| Authorizes(t, e.receiver, e.sender, m, c);
      AuthorizesOne(t, c, e.sender, e.receiver, n, e.receiver, e.sender, m);
    }
  }

  /** The whole of it on one update: its one transfer is the payment, and not the payment back. */
  lemma OneTransferDelivers(p: string, r: string, a: Json, n: int, c: Config)
    requires c.number(a) == Some(n) && n > 0 && p != r
    ensures var t := Obj([Str(p), Str(r), a, Str(c.instrumentId)], ["sender", "receiver", "amount", "instrument_id"]);
            var root := Obj([t], ["transfer"]);
            && Delivers(root, c, Expected(p, r, n, ""), n)
            && Authorizes(t, p, r, n, c) && !Authorizes(t, r, p, n, c)
  {
    var t := Obj([Str(p), Str(r), a, Str(c.instrumentId)], ["sender", "receiver", "amount", "instrument_id"]);
    var root := Obj([t], ["transfer"]);
    assert At(root, []) == Some(root);
    assert t.keys[0] == "sender" && t.keys[1] == "receiver" && t.keys[2] == "amount" && t.keys[3] == "instrument_id";
    assert Field(t, "sender", Str(p));
    assert Field(t, "receiver", Str(r));
    assert Field(t, "amount", a);
    assert root.keys[0] == "transfer";
    assert Field(root, "transfer", t);
    assert Field(t, "instrument_id", Str(c.instrumentId));
    GetIs(t, "instrument_id");
    assert Chosen(t, ["instrument_id", "instrumentId"], Some(Str(c.instrumentId))) by {
      PickIs(t, ["instrument_id", "instrumentId"], Some(Str(c.instrumentId)));
    }
    if Authorizes(t, r, p, n, c) {
      AuthorizesOne(t, c, p, r, n, r, p, n);
    }
  }

  /** A holding names no sender, so only a transfer specification is ever evidence of a delivery. */
  lemma HoldingsAreNoDelivery(node: Json, c: Config, leg: Leg, e: Expected)
    requires leg in OwnLegs(node, c) && Meets(leg, e)
    ensures TransferSpecLeg(node.Get("transfer"), c) == Some(leg)
  {
  }

  // ----- consumption and creation -----

  const EVENT_KEYS: seq<string> := ["exercised_event", "exercisedEvent", "archived_event", "archivedEvent"]

  predicate Names(o: Option<Json>, cid: string) {
    PickIn(o, ["contract_id", "contractId"]) == Some(Str(cid))
  }

  /** This object exercises or archives the contract. */
  predicate Consumes(node: Json, cid: string) {
    || (exists i :: 0 <= i < |EVENT_KEYS| && IsObject(node.Get(EVENT_KEYS[i])) && Names(node.Get(EVENT_KEYS[i]), cid))
    || (node.Pick(["event_type", "eventType"]) in {Some(Str("exercised_event")), Some(Str("archived_event"))}
        && Names(Some(node), cid))
  }

  ghost predicate NamesContract(j: Json, cid: string) {
    Chosen(j, ["contract_id", "contractId"], Some(Str(cid)))
  }

  ghost predicate ReportsUnder(node: Json, key: string, cid: string) {
    exists ev :: Field(node, key, ev) && ev.Branches() && NamesContract(ev, cid)
  }

  ghost predicate IsOfType(node: Json, eventType: string) {
    Chosen(node, ["event_type", "eventType"], Some(Str(eventType)))
  }

  /** This object reports the exercise or the archiving of the contract: as a property of it, or by its own type. */
  ghost predicate Reports(node: Json, cid: string) {
    || ReportsUnder(node, "exercised_event", cid) || ReportsUnder(node, "exercisedEvent", cid)
    || ReportsUnder(node, "archived_event", cid) || ReportsUnder(node, "archivedEvent", cid)
    || ((IsOfType(node, "exercised_event") || IsOfType(node, "archived_event")) && NamesContract(node, cid))
  }

  lemma NamesIs(o: Option<Json>, cid: string)
    ensures Names(o, cid) <==> o.Some? && NamesContract(o.value, cid)
  {
    if o.Some? {
      PickIs(o.value, ["contract_id", "contractId"], Some(Str(cid)));
    }
  }

  lemma EventConsumes(node: Json, cid: string, key: string)
    ensures IsObject(node.Get(key)) && Names(node.Get(key), cid) <==> ReportsUnder(node, key, cid)
  {
    GetIs(node, key);
    NamesIs(node.Get(key), cid);
  }

  lemma ConsumesIs(node: Json, cid: string)
    ensures Consumes(node, cid) <==> Reports(node, cid)
  {
    forall i | 0 <= i < |EVENT_KEYS|
      ensures IsObject(node.Get(EVENT_KEYS[i])) && Names(node.Get(EVENT_KEYS[i]), cid) <==> ReportsUnder(node, EVENT_KEYS[i], cid) {
      EventConsumes(node, cid, EVENT_KEYS[i]);
    }
    PickIs(node, ["event_type", "eventType"], Some(Str("exercised_event")));
    PickIs(node, ["event_type", "eventType"], Some(Str("archived_event")));
    NamesIs(Some(node), cid);
    hide Names, NamesContract, ReportsUnder, Chosen;
    assert EVENT_KEYS[0] == "exercised_event" && EVENT_KEYS[1] == "exercisedEvent";
    assert EVENT_KEYS[2] == "archived_event" && EVENT_KEYS[3] == "archivedEvent";
  }

  lemma LacksReport(node: Json, key: string, cid: string)
    requires !Has(node, key)
    ensures !ReportsUnder(node, key, cid)
  {
  }

  /** The object that creates a contract does not by that consume it. */
  lemma CreationDoesNotConsume(node: Json, cid: string)
    requires !Has(node, "exercised_event") && !Has(node, "exercisedEvent") && !Has(node, "archived_event") && !Has(node, "archivedEvent")
    requires !Has(node, "event_type") && !Has(node, "eventType")
    ensures !Consumes(node, cid)
  {
    ConsumesIs(node, cid);
    LacksReport(node, "exercised_event", cid);
    LacksReport(node, "exercisedEvent", cid);
    LacksReport(node, "archived_event", cid);
    LacksReport(node, "archivedEvent", cid);
    var names := ["event_type", "eventType"];
    PickSome(node, names);
    PickIs(node, names, Some(Str("exercised_event")));
    PickIs(node, names, Some(Str("archived_event")));
    hide Chosen, Field, Has;
  }

  /** True exactly when some object of the update, at any depth, consumes the contract. */
  method UpdateConsumesContract(body: Option<Json>, cid: string) returns (r: bool)
    ensures r <==> body.Some? && exists o :: Holds(body.value, o) && Reports(o, cid)
  {
    hide Consumes, Reports, Visit, Holds;
    forall o ensures Consumes(o, cid) <==> Reports(o, cid) {
      ConsumesIs(o, cid);
    }
    if body.None? {
      return false;
    }
    var stack := [body.value];
    ghost var done: seq<Json> := [];
    WalkFromRoot(body.value);
    while |stack| > 0
      invariant done + VisitAll(stack) == Visit(body.value)
      invariant forall o :: o in done ==> !Consumes(o, cid)
      decreases Sizes(stack)
    {
      WalkStep(stack);
      var node := stack[|stack| - 1];
      stack := stack[..|stack| - 1];
      if node.Branches() {
        if node.Obj? {
          done := done + [node];
          assert node in done;
          if Consumes(node, cid) {
            VisitMeetsAll(body.value, node);
            return true;
          }
        }
        stack := stack + node.items;
      }
    }
    forall o | Holds(body.value, o) ensures !Consumes(o, cid) {
      VisitMeetsAll(body.value, o);
    }
    return false;
  }

  /** JavaScript's `a ?? b` on two properties: null is passed over. */
  function Coalesce(node: Json, a: string, b: string): Option<Json> {
    if node.Get(a).Some? && !node.Get(a).value.Null? then node.Get(a) else node.Get(b)
  }

  predicate Contains(s: string, t: string) {
    t <= s || (|s| > 0 && Contains(s[1..], t))
  }

  /** The contract of the pending offer this object creates. */
  function CreatedInstruction(node: Json): Option<string> {
    var tid := AsString(Coalesce(node, "template_id", "templateId"));
    var cid := AsString(Coalesce(node, "contract_id", "contractId"));
    if && tid.Some? && (Contains(tid.value, "TransferInstruction") || Contains(tid.value, "TransferOffer"))
       && cid.Some? && |cid.value| > 0
       && node.Pick(["create_arguments", "createArguments", "createArgument"]).Some?
    then cid
    else None
  }

  lemma {:induction false} ContainsIs(s: string, t: string)
    ensures Contains(s, t) <==> exists a: string, b: string :: s == a + t + b
  {
    if t <= s {
      assert s == "" + t + s[|t|..];
    } else if |s| > 0 {
      ContainsIs(s[1..], t);
      if Contains(s[1..], t) {
        var a: string, b: string :| s[1..] == a + t + b;
        assert s == ([s[0]] + a) + t + b;
      }
      if a: string, b: string :| s == a + t + b {
        assert |a| > 0;
        assert s[1..] == a[1..] + t + b;
      }
    }
  }

  /** x is the first of the two properties that is there and is not null, or the second's null. */
  ghost predicate First(j: Json, a: string, b: string, x: Json) {
    if exists v :: Field(j, a, v) && !v.Null? then Field(j, a, x) else Field(j, b, x)
  }

  /** The object creates the offer contract cid: a pending transfer of either template family, with its arguments. */
  ghost predicate Creates(node: Json, cid: string) {
    exists tid ::
      && First(node, "template_id", "templateId", Str(tid))
      && ((exists a, b :: tid == a + "TransferInstruction" + b) || (exists a, b :: tid == a + "TransferOffer" + b))
      && First(node, "contract_id", "contractId", Str(cid)) && cid != ""
      && (Has(node, "create_arguments") || Has(node, "createArguments") || Has(node, "createArgument"))
  }

  lemma CoalesceIs(j: Json, a: string, b: string, x: Json)
    ensures Coalesce(j, a, b) == Some(x) <==> First(j, a, b, x)
  {
    GetIs(j, a);
    GetIs(j, b);
  }

  lemma PickSome(j: Json, names: seq<string>)
    ensures j.Pick(names).Some? <==> exists i :: 0 <= i < |names| && Has(j, names[i])
  {
    if |names| > 0 {
      GetIs(j, names[0]);
      PickSome(j, names[1..]);
      assert forall i :: 1 <= i < |names| ==> names[i] == names[1..][i - 1];
    }
  }

  lemma CreatedIs(node: Json, cid: string)
    ensures CreatedInstruction(node) == Some(cid) <==> Creates(node, cid)
  {
    var tid := Coalesce(node, "template_id", "templateId");
    if AsString(tid).Some? {
      ContainsIs(tid.value.s, "TransferInstruction");
      ContainsIs(tid.value.s, "TransferOffer");
    }
    forall t ensures tid == Some(Str(t)) <==> First(node, "template_id", "templateId", Str(t)) {
      CoalesceIs(node, "template_id", "templateId", Str(t));
    }
    CoalesceIs(node, "contract_id", "contractId", Str(cid));
    var names := ["create_arguments", "createArguments", "createArgument"];
    PickSome(node, names);
    assert names[0] == "create_arguments" && names[1] == "createArguments" && names[2] == "createArgument";
    hide First, Has, Contains, Coalesce;
  }

  /** An offer created anywhere in the update is found; None means the transfer was delivered directly. */
  method FindCreatedInstructionCid(body: Option<Json>) returns (cid: Option<string>)
    ensures cid.Some? ==> body.Some? && exists o :: Holds(body.value, o) && Creates(o, cid.value)
    ensures cid.None? ==> body.None? || forall o, x :: Holds(body.value, o) ==> !Creates(o, x)
  {
    hide CreatedInstruction, Creates, Visit, Holds;
    forall o, x ensures CreatedInstruction(o) == Some(x) <==> Creates(o, x) {
      CreatedIs(o, x);
    }
    cid := None;
    if body.None? {
      return;
    }
    var stack := [body.value];
    ghost var done: seq<Json> := [];
    WalkFromRoot(body.value);
    while |stack| > 0
      invariant done + VisitAll(stack) == Visit(body.value)
      invariant forall o :: o in done ==> CreatedInstruction(o).None?
      decreases Sizes(stack)
    {
      WalkStep(stack);
      var node := stack[|stack| - 1];
      stack := stack[..|stack| - 1];
      if node.Branches() {
        if node.Obj? {
          done := done + [node];
          assert node in done;
          var found := CreatedInstruction(node);
          if found.Some? {
            VisitMeetsAll(body.value, node);
            return found;
          }
        }
        stack := stack + node.items;
      }
    }
    forall o | Holds(body.value, o) ensures CreatedInstruction(o).None? {
      VisitMeetsAll(body.value, o);
    }
  }
}
