/** The checkpoint migration scheduler: upgraders and downgraders are applied in rounds,
    each when the tags it depends on are present. */
module Upgrader {

  datatype Tag = Tag(name: string)

  datatype Kind = Upgrade | Downgrade

  /** One migration script, as declared by its file. */
  datatype Script = Script(kind: Kind, depends: seq<Tag>, fwdDepends: seq<Tag>)

  type Registry = map<Tag, Script>

  // ---------- Loading: resolving the dependencies ----------

  /** Every dependency names a script. */
  predicate Closed(reg: Registry) {
    forall t | t in reg :: forall d | d in reg[t].depends :: d in reg
  }

  predicate FwdClosed(reg: Registry) {
    forall t | t in reg :: forall d | d in reg[t].fwdDepends :: d in reg
  }

  function Names(s: seq<Tag>): (r: set<Tag>)
    ensures forall d :: d in r <==> d in s
  {
    set d | d in s
  }

  /** The scripts of `done` that declare that `t` depends on them. */
  function ForwardTo(reg: Registry, done: seq<Tag>, t: Tag): (r: set<Tag>)
    ensures forall u :: u in r <==> u in done && u in reg && t in reg[u].fwdDepends
  {
    set u | u in done && u in reg && t in reg[u].fwdDepends
  }

  /** `s'` is `s` with the dependencies `extra` added. */
  predicate LinkedOne(s: Script, s': Script, extra: set<Tag>) {
    s'.kind == s.kind && s'.fwdDepends == s.fwdDepends && Names(s'.depends) == Names(s.depends) + extra
  }

  predicate Linked(reg: Registry, done: seq<Tag>, resolved: Registry) {
    && resolved.Keys == reg.Keys
    && forall t | t in reg :: LinkedOne(reg[t], resolved[t], ForwardTo(reg, done, t))
  }

  /** Appends `tag` to the dependencies of every script it is a forward dependency of. */
  method AddForward(reg: Registry, tag: Tag) returns (ok: bool, linked: Registry)
    requires tag in reg
    ensures ok <==> forall d | d in reg[tag].fwdDepends :: d in reg
    ensures linked.Keys == reg.Keys
    ensures ok ==> forall t | t in reg ::
              LinkedOne(reg[t], linked[t], Link(reg, tag, t))
  {
    linked := reg;
    var fwd := reg[tag].fwdDepends;
    for k := 0 to |fwd|
      invariant linked.Keys == reg.Keys
      invariant forall d | d in fwd[..k] :: d in reg
      invariant forall t | t in reg :: LinkedOne(reg[t], linked[t], if t in fwd[..k] then {tag} else {})
    {
      var fd := fwd[k];
      if fd !in linked {
        return false, linked;
      }
      assert forall t :: t in fwd[..k + 1] <==> t in fwd[..k] || t == fd;
      linked := linked[fd := linked[fd].(depends := linked[fd].depends + [tag])];
    }
    assert fwd[..|fwd|] == fwd;
    ok := true;
  }

  method Audit(reg: Registry, tag: Tag) returns (ok: bool)
    requires tag in reg
    ensures ok <==> forall d | d in reg[tag].depends :: d in reg
  {
    var deps := reg[tag].depends;
    for k := 0 to |deps|
      invariant forall d | d in deps[..k] :: d in reg
    {
      if deps[k] !in reg {
        return false;
      }
    }
    ok := true;
  }

  function Link(reg: Registry, tag: Tag, t: Tag): set<Tag>
    requires tag in reg
  {
    if t in reg[tag].fwdDepends then {tag} else {}
  }

  lemma LinkMore(reg: Registry, done: seq<Tag>, tag: Tag, before: Script, after: Script, t: Tag)
    requires tag in reg && t in reg
    requires LinkedOne(reg[t], before, ForwardTo(reg, done, t)) && LinkedOne(before, after, Link(reg, tag, t))
    ensures LinkedOne(reg[t], after, ForwardTo(reg, done + [tag], t))
  {
  }

  /** The audit of a script sees its own dependencies and links to known scripts. */
  lemma AuditMeans(reg: Registry, done: seq<Tag>, resolved: Registry, t: Tag)
    requires Linked(reg, done, resolved) && t in reg
    ensures (forall d | d in resolved[t].depends :: d in reg) <==> (forall d | d in reg[t].depends :: d in reg)
  {
  }

  ghost predicate AllKnown(reg: Registry, u: Tag)
    requires u in reg
  {
    (forall d | d in reg[u].depends :: d in reg) && (forall d | d in reg[u].fwdDepends :: d in reg)
  }

  method ResolveOne(reg: Registry, ghost done: seq<Tag>, before: Registry, tag: Tag)
    returns (ok: bool, linked: Registry)
    requires tag in reg && Linked(reg, done, before)
    ensures ok <==> AllKnown(reg, tag)
    ensures ok ==> Linked(reg, done + [tag], linked)
  {
    assert LinkedOne(reg[tag], before[tag], ForwardTo(reg, done, tag));
    ok, linked := AddForward(before, tag);
    if ok {
      forall t | t in reg ensures LinkedOne(reg[t], linked[t], ForwardTo(reg, done + [tag], t)) {
        LinkMore(reg, done, tag, before[t], linked[t], t);
      }
      ok := Audit(linked, tag);
      AuditMeans(reg, done + [tag], linked, tag);
    }
  }

  ghost predicate KnownSoFar(reg: Registry, done: seq<Tag>) {
    done == [] ||
    (KnownSoFar(reg, done[..|done| - 1]) && done[|done| - 1] in reg && AllKnown(reg, done[|done| - 1]))
  }

  lemma KnownMember(reg: Registry, done: seq<Tag>, t: Tag)
    requires KnownSoFar(reg, done) && t in done && t in reg
    ensures AllKnown(reg, t)
  {
  }

  lemma AllKnownMeans(reg: Registry)
    ensures (forall t | t in reg :: AllKnown(reg, t)) <==> Closed(reg) && FwdClosed(reg)
  {
  }

  lemma LinkedClosed(reg: Registry, done: seq<Tag>, resolved: Registry)
    requires Linked(reg, done, resolved) && forall t | t in reg :: AllKnown(reg, t)
    ensures Closed(resolved)
  {
  }

  lemma OrderStep(reg: Registry, order: seq<Tag>, n: nat)
    requires Names(order) == reg.Keys && n < |order|
    ensures order[n] in reg && order[..n + 1] == order[..n] + [order[n]]
    ensures KnownSoFar(reg, order[..n + 1]) <==> KnownSoFar(reg, order[..n]) && AllKnown(reg, order[n])
  {
  }

  lemma EveryKnown(reg: Registry, order: seq<Tag>)
    requires Names(order) == reg.Keys && KnownSoFar(reg, order)
    ensures forall t | t in reg :: AllKnown(reg, t)
  {
    forall t | t in reg ensures AllKnown(reg, t) {
      assert t in Names(order);
      KnownMember(reg, order, t);
    }
  }

  /** Reverses forward dependencies into ordinary ones and audits both, visiting the
      scripts in the given order. Fails at the first name that is no script. */
  method Resolve(reg: Registry, order: seq<Tag>) returns (ok: bool, resolved: Registry)
    requires Names(order) == reg.Keys
    ensures ok <==> Closed(reg) && FwdClosed(reg)
    ensures ok ==> Closed(resolved) && Linked(reg, order, resolved)
  {
    AllKnownMeans(reg);
    resolved := reg;
    assert Linked(reg, [], resolved);
    for n := 0 to |order|
      invariant Linked(reg, order[..n], resolved)
      invariant KnownSoFar(reg, order[..n])
    {
      OrderStep(reg, order, n);
      var passed, linked := ResolveOne(reg, order[..n], resolved, order[n]);
      if !passed {
        return false, resolved;
      }
      resolved := linked;
    }
    assert order[..|order|] == order;
    EveryKnown(reg, order);
    LinkedClosed(reg, order, resolved);
    ok := true;
  }
}
