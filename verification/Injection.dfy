/**
 The operator's handshake: the admission webhook adds a secret reference and a label to a
 pod, and the secrets controller, woken by the label, creates the secret with a device key.
 */
module Injection {
  import opened Options

  datatype Result<T> = Ok(value: T) | Err(error: string)

  /** A source of environment variables: a secret by name, or something else. */
  datatype EnvFrom = SecretRef(name: string) | OtherSource

  datatype Container = Container(name: string, image: string, envFrom: seq<EnvFrom>)

  datatype Pod = Pod(namespace: string, name: string, labels: map<string, string>,
                     containers: seq<Container>, sharedProcesses: bool)

  const WEBUI := "tsymbiote-webui"
  const ADAPTER := "tsymbiote-adapter"
  const PREFIX := "tsymbiote-inject"
  const ENABLE_LABEL := "tsymbiote-secret-injection"
  const INJECTED_LABEL := "tsymbiote-secret-injected"

  function SecretNameFor(podName: string): string {
    PREFIX + "-" + podName
  }

  // ----- The webhook ----------------------------------------------------------------------

  predicate HasWebUI(cs: seq<Container>) {
    exists k :: 0 <= k < |cs| && cs[k].name == WEBUI
  }

  function Labelled(p: Pod): Pod {
    p.(labels := p.labels[INJECTED_LABEL := "true"])
  }

  function AdapterContainer(p: Pod, image: string): Container {
    Container(ADAPTER, image, [SecretRef(SecretNameFor(p.name))])
  }

  function DefaultAdapterPod(p: Pod, image: Option<string>): Result<Pod> {
    match image
    case None => Err("TSYMBIOTE_ADAPTER_IMAGE must be set.")
    case Some(i) => Ok(Labelled(p.(sharedProcesses := true, containers := p.containers + [AdapterContainer(p, i)])))
  }

  function WithRef(p: Pod, c: Container): Container {
    c.(envFrom := c.envFrom + [SecretRef(SecretNameFor(p.name))])
  }

  /** The reference goes to the first container, whichever one is the web UI. */
  function DefaultWebUIPod(p: Pod): Pod
    requires p.containers != []
  {
    Labelled(p.(containers := p.containers[0 := WithRef(p, p.containers[0])]))
  }

  function Default(p: Pod, image: Option<string>): Result<Pod> {
    if HasWebUI(p.containers) then Ok(DefaultWebUIPod(p)) else DefaultAdapterPod(p, image)
  }

  /** A pod as the admission request's mutable object. */
  class PodObject {
    const namespace: string
    const name: string
    var labels: map<string, string>
    var containers: seq<Container>
    var sharedProcesses: bool

    ghost function View(): Pod
      reads this
    {
      Pod(namespace, name, labels, containers, sharedProcesses)
    }

    constructor (p: Pod)
      ensures View() == p
    {
      namespace, name, labels, containers, sharedProcesses :=
        p.namespace, p.name, p.labels, p.containers, p.sharedProcesses;
    }

    method ApplyDefault(image: Option<string>) returns (ok: bool)
      modifies this
      ensures ok == Default(old(View()), image).Ok?
      ensures View() == if ok then Default(old(View()), image).value else old(View())
      ensures |old(containers)| <= |containers| && forall k :: 0 <= k < |old(containers)| ==>
                && containers[k].name == old(containers)[k].name && containers[k].image == old(containers)[k].image
                && old(containers)[k].envFrom <= containers[k].envFrom
    {
      for k := 0 to |containers|
        invariant View() == old(View())
        invariant forall j :: 0 <= j < k ==> containers[j].name != WEBUI
      {
        if containers[k].name == WEBUI {
          var first := containers[0];
          containers := containers[0 := first.(envFrom := first.envFrom + [SecretRef(SecretNameFor(name))])];
          labels := labels[INJECTED_LABEL := "true"];
          return true;
        }
      }
      if image.None? {
        return false;
      }
      sharedProcesses := true;
      containers := containers + [Container(ADAPTER, image.value, [SecretRef(SecretNameFor(name))])];
      labels := labels[INJECTED_LABEL := "true"];
      return true;
    }
  }

  // ----- The watch filter -------------------------------------------------------------------

  predicate Watched(labels: map<string, string>) {
    && ENABLE_LABEL in labels && labels[ENABLE_LABEL] == "enabled"
    && INJECTED_LABEL in labels && labels[INJECTED_LABEL] == "true"
  }

  // ----- The secret a pod refers to ------------------------------------------------------------

  predicate Ours(c: Container) {
    c.name == ADAPTER || c.name == WEBUI
  }

  predicate Mentions(s: string, word: string) {
    exists k :: 0 <= k <= |s| && word <= s[k..]
  }

  predicate InjectRef(e: EnvFrom) {
    e.SecretRef? && Mentions(e.name, PREFIX)
  }

  /** The first reference of a container that mentions the prefix. */
  function FirstRef(es: seq<EnvFrom>): Option<string> {
    if es == [] then None else if InjectRef(es[0]) then Some(es[0].name) else FirstRef(es[1..])
  }

  /** The last of our containers with such a reference decides. */
  function RefName(cs: seq<Container>): Option<string> {
    if cs == [] then None
    else
      var last := cs[|cs| - 1];
      if Ours(last) && FirstRef(last.envFrom).Some? then FirstRef(last.envFrom) else RefName(cs[..|cs| - 1])
  }

  function TagOf(cs: seq<Container>): string {
    if HasWebUI(cs) then "tag:tsymbiote-webui" else "tag:tsymbiote-adapter"
  }

  lemma OwnRefMentions(podName: string)
    ensures Mentions(SecretNameFor(podName), PREFIX)
  {
    assert PREFIX <= SecretNameFor(podName)[0..];
  }

  lemma {:induction false} FirstRefAppend(es: seq<EnvFrom>, e: EnvFrom)
    requires InjectRef(e)
    ensures FirstRef(es + [e]) == if FirstRef(es).Some? then FirstRef(es) else Some(e.name)
  {
    if es != [] {
      assert (es + [e])[1..] == es[1..] + [e];
      FirstRefAppend(es[1..], e);
    } else {
      assert es + [e] == [e];
    }
  }

  lemma {:induction false} RefNameConcat(a: seq<Container>, b: seq<Container>)
    ensures RefName(a + b) == if RefName(b).Some? then RefName(b) else RefName(a)
    decreases |b|
  {
    if b == [] {
      assert a + b == a;
    } else {
      assert (a + b)[..|a + b| - 1] == a + b[..|b| - 1];
      RefNameConcat(a, b[..|b| - 1]);
    }
  }

  // ----- Webhook and controller agree ---------------------------------------------------------

  ghost predicate Enabled(p: Pod) {
    ENABLE_LABEL in p.labels && p.labels[ENABLE_LABEL] == "enabled"
  }

  /** Every enabled pod defaulted as an adapter is watched and resolves to its own secret with
      the adapter's tag, whatever containers it already had. */
  lemma {:induction false} AdapterHandshake(p: Pod, image: string)
    requires Enabled(p) && !HasWebUI(p.containers)
    ensures var q := Default(p, Some(image));
            && q.Ok? && Watched(q.value.labels)
            && RefName(q.value.containers) == Some(SecretNameFor(p.name))
            && TagOf(q.value.containers) == "tag:tsymbiote-adapter"
  {
    var c := AdapterContainer(p, image);
    OwnRefMentions(p.name);
    assert FirstRef(c.envFrom) == Some(SecretNameFor(p.name));
    assert (p.containers + [c])[..|p.containers|] == p.containers;
    assert forall k :: 0 <= k < |p.containers| ==> p.containers[k].name != WEBUI;
  }

  /** Before defaulting, the references already in the pod let its own one decide. */
  predicate OwnRefDecides(p: Pod)
    requires p.containers != []
  {
    match RefName(p.containers[1..])
    case Some(name) => name == SecretNameFor(p.name)
    case None =>
      var c := p.containers[0];
      Ours(c) && (FirstRef(c.envFrom).Some? ==> FirstRef(c.envFrom) == Some(SecretNameFor(p.name)))
  }

  /** An enabled web UI pod is watched with the web UI's tag, and resolves to its own secret
      exactly when its own reference decides. */
  lemma {:induction false} WebUIHandshakeIff(p: Pod, image: Option<string>)
    requires Enabled(p) && HasWebUI(p.containers)
    ensures var q := Default(p, image);
            && q.Ok? && Watched(q.value.labels)
            && TagOf(q.value.containers) == "tag:tsymbiote-webui"
            && (RefName(q.value.containers) == Some(SecretNameFor(p.name)) <==> OwnRefDecides(p))
  {
    var q := DefaultWebUIPod(p);
    var first, rest := WithRef(p, p.containers[0]), p.containers[1..];
    var k :| 0 <= k < |p.containers| && p.containers[k].name == WEBUI;
    assert q.containers[k].name == WEBUI;
    assert q.containers == [first] + rest;
    OwnRefMentions(p.name);
    FirstRefAppend(p.containers[0].envFrom, SecretRef(SecretNameFor(p.name)));
    RefNameConcat([first], rest);
    assert [first][..0] == [];
  }

  /** The common case: the only one of our containers comes first and has no such reference yet. */
  lemma WebUIAloneAndFirst(p: Pod)
    requires p.containers != [] && p.containers[0].name == WEBUI && FirstRef(p.containers[0].envFrom) == None
    requires forall k :: 1 <= k < |p.containers| ==> !Ours(p.containers[k])
    ensures OwnRefDecides(p)
  {
    NoneOfOurs(p.containers[1..]);
  }

  lemma {:induction false} NoneOfOurs(cs: seq<Container>)
    requires forall k :: 0 <= k < |cs| ==> !Ours(cs[k])
    ensures RefName(cs) == None
  {
    if cs != [] {
      NoneOfOurs(cs[..|cs| - 1]);
    }
  }

  /** A web UI that is not the first container gets no secret: its reference went to another. */
  lemma {:induction false} WebUINotFirst(p: Pod, image: Option<string>)
    requires Enabled(p) && HasWebUI(p.containers)
    requires !Ours(p.containers[0]) && RefName(p.containers) == None
    ensures RefName(Default(p, image).value.containers) == None
  {
    var first, rest := WithRef(p, p.containers[0]), p.containers[1..];
    assert p.containers == [p.containers[0]] + rest;
    assert DefaultWebUIPod(p).containers == [first] + rest;
    RefNameConcat([p.containers[0]], rest);
    RefNameConcat([first], rest);
    assert [first][..0] == [];
  }

  // ----- What admission keeps ---------------------------------------------------------------------

  /** Whatever it does, admission keeps the pod's containers with their images and sources, in place, and
      every label but its own. */
  lemma {:induction false} AdmissionKeeps(p: Pod, image: Option<string>)
    requires Default(p, image).Ok?
    ensures var q := Default(p, image).value;
            && q.namespace == p.namespace && q.name == p.name
            && |p.containers| <= |q.containers| <= |p.containers| + 1
            && (forall k :: 0 <= k < |p.containers| ==>
                  && q.containers[k].name == p.containers[k].name && q.containers[k].image == p.containers[k].image
                  && p.containers[k].envFrom <= q.containers[k].envFrom)
            && (forall l :: l != INJECTED_LABEL ==>
                  (l in q.labels <==> l in p.labels) && (l in p.labels ==> q.labels[l] == p.labels[l]))
  {}

  /** Admission fails exactly when there is no web UI and no adapter image. An admitted pod is watched exactly
      if it was enabled.  It gets one reference more, to its own secret: with a web UI, in its first container,
      and otherwise in an adapter container of the given image, with which its processes are shared. */
  lemma {:induction false} AdmissionAdds(p: Pod, image: Option<string>)
    ensures Default(p, image).Ok? <==> HasWebUI(p.containers) || image.Some?
    ensures Default(p, image).Ok? ==>
              var q, ref := Default(p, image).value, SecretRef("tsymbiote-inject-" + p.name);
              && (Watched(q.labels) <==> Enabled(p))
              && if HasWebUI(p.containers) then
                   && |q.containers| == |p.containers| && q.containers[1..] == p.containers[1..]
                   && q.containers[0].envFrom == p.containers[0].envFrom + [ref]
                   && q.sharedProcesses == p.sharedProcesses
                 else
                   && |q.containers| == |p.containers| + 1
                   && q.containers[|p.containers|] == Container("tsymbiote-adapter", image.value, [ref])
                   && q.sharedProcesses
  {
    assert "tsymbiote-inject" + "-" == "tsymbiote-inject-";
  }

  /** Neither is a pod watched that is not enabled, or that has not been admitted. */
  lemma {:induction false} WatchedNeedsBoth(labels: map<string, string>)
    ensures Watched(labels) <==>
              forall l :: l in {ENABLE_LABEL, INJECTED_LABEL} ==>
                l in labels && labels[l] == if l == ENABLE_LABEL then "enabled" else "true"
  {
    assert ENABLE_LABEL != INJECTED_LABEL;
  }

  /** Reference `j` of container `k` mentions the prefix. */
  ghost predicate RefAt(cs: seq<Container>, k: nat, j: nat) {
    && k < |cs| && (cs[k].name == "tsymbiote-adapter" || cs[k].name == "tsymbiote-webui")
    && j < |cs[k].envFrom| && cs[k].envFrom[j].SecretRef?
    && exists i :: 0 <= i <= |cs[k].envFrom[j].name| && "tsymbiote-inject" <= cs[k].envFrom[j].name[i..]
  }

  /** It is the first of the last of our containers with one. */
  ghost predicate Decides(cs: seq<Container>, k: nat, j: nat) {
    && RefAt(cs, k, j)
    && (forall i :: 0 <= i < j ==> !RefAt(cs, k, i))
    && (forall l, i :: k < l < |cs| && 0 <= i ==> !RefAt(cs, l, i))
  }

  lemma {:induction false} FirstRefExact(cs: seq<Container>, k: nat, es: seq<EnvFrom>, from: nat)
    requires k < |cs| && Ours(cs[k]) && from <= |cs[k].envFrom| && es == cs[k].envFrom[from..]
    ensures match FirstRef(es)
            case None => forall j: nat :: from <= j ==> !RefAt(cs, k, j)
            case Some(name) => exists j: nat :: from <= j && RefAt(cs, k, j) && cs[k].envFrom[j].name == name
                                 && forall i :: from <= i < j ==> !RefAt(cs, k, i)
    decreases |es|
  {
    if es != [] {
      assert es[0] == cs[k].envFrom[from];
      assert InjectRef(es[0]) <==> RefAt(cs, k, from);
      if !InjectRef(es[0]) {
        FirstRefExact(cs, k, es[1..], from + 1);
      } else {
        assert RefAt(cs, k, from) && cs[k].envFrom[from].name == es[0].name;
      }
    }
  }

  lemma {:induction false} RefNameOfFirst(cs: seq<Container>, n: nat)
    requires n <= |cs|
    ensures match RefName(cs[..n])
            case None => forall k: nat, j: nat :: k < n ==> !RefAt(cs, k, j)
            case Some(name) => exists k: nat, j: nat :: k < n && RefAt(cs, k, j) && cs[k].envFrom[j].name == name
                                 && (forall i :: 0 <= i < j ==> !RefAt(cs, k, i))
                                 && (forall l, i :: k < l < n && 0 <= i ==> !RefAt(cs, l, i))
  {
    if n > 0 {
      assert cs[..n][..n - 1] == cs[..n - 1];
      RefNameOfFirst(cs, n - 1);
      if Ours(cs[n - 1]) {
        assert cs[n - 1].envFrom[0..] == cs[n - 1].envFrom;
        FirstRefExact(cs, n - 1, cs[n - 1].envFrom, 0);
      }
    }
  }

  /** Exactly which secret a pod resolves to: the first reference mentioning the prefix in the last adapter or
      web UI container that has one; and to none exactly if there is no such reference. */
  lemma {:induction false} RefNameExact(cs: seq<Container>)
    ensures RefName(cs) == None <==> forall k: nat, j: nat :: !RefAt(cs, k, j)
    ensures forall k: nat, j: nat :: Decides(cs, k, j) ==> RefName(cs) == Some(cs[k].envFrom[j].name)
  {
    assert cs[..|cs|] == cs;
    RefNameOfFirst(cs, |cs|);
    forall k: nat, j: nat | Decides(cs, k, j)
      ensures RefName(cs) == Some(cs[k].envFrom[j].name)
    {
      assert RefAt(cs, k, j);
    }
  }

  // ----- The controller ---------------------------------------------------------------------------

  datatype Key = Key(namespace: string, name: string)

  /** A device key asked for, by pod and tag, and what the control plane answered. */
  datatype DeviceKey = DeviceKey(pod: string, tag: string, key: string)

  /** `keys`, the counts and `madeFor`, the device key last stored in each secret, are histories. */
  datatype Cluster = Cluster(
    pods: map<Key, Pod>,
    secrets: map<Key, string>,
    keys: seq<DeviceKey>,
    created: nat,
    failedApplies: nat,
    collected: nat,
    madeFor: map<Key, DeviceKey>)

  /** What the controller's calls answer; reads are consistent. */
  datatype Answers = Answers(clientOk: bool, podOk: bool, secretOk: bool, key: Option<string>, applyOk: bool)

  function ReconcileStep(c: Cluster, req: Key, a: Answers): (Cluster, bool) {
    if !a.clientOk || !a.podOk then (c, false)
    else if req !in c.pods then (c, true)
    else
      var p := c.pods[req];
      match RefName(p.containers)
      case None => (c, false)
      case Some(name) =>
        if name == "" || !a.secretOk then (c, false)
        else
          var secret := Key(p.namespace, name);
          if secret in c.secrets then (c, true)
          else
            match a.key
            case None => (c, false)
            case Some(k) =>
              var made := DeviceKey(p.name, TagOf(p.containers), k);
              var asked := c.(keys := c.keys + [made]);
              if a.applyOk then
                (asked.(secrets := c.secrets[secret := k], created := c.created + 1,
                        madeFor := c.madeFor[secret := made]), true)
              else (asked.(failedApplies := c.failedApplies + 1), false)
  }

  /** The reconcile gets as far as a device key: its reads worked, the pod resolves to a secret that is not
      there, and the control plane gave a key. */
  predicate AsksForKey(c: Cluster, req: Key, a: Answers) {
    && a.clientOk && a.podOk && a.secretOk && a.key.Some? && req in c.pods
    && match RefName(c.pods[req].containers)
       case None => false
       case Some(name) => name != "" && Key(c.pods[req].namespace, name) !in c.secrets
  }

  /** A reconcile asks for a key at most once, for its pod with the pod's tag, and either stores it or counts a
      failed apply. */
  lemma {:induction false} ReconcileAsks(c: Cluster, req: Key, a: Answers)
    ensures var after, asks := ReconcileStep(c, req, a).0, AsksForKey(c, req, a);
            && after.keys == (if asks then c.keys + [DeviceKey(c.pods[req].name, TagOf(c.pods[req].containers), a.key.value)]
                              else c.keys)
            && after.created == c.created + (if asks && a.applyOk then 1 else 0)
            && after.failedApplies == c.failedApplies + if asks && !a.applyOk then 1 else 0
  {}

  /** A reconcile reports success exactly when its reads worked and the pod is gone or resolves to a secret
      that is there afterwards; when it fails it has at most asked for a key. */
  lemma {:induction false} ReconcileOkIff(c: Cluster, req: Key, a: Answers)
    ensures var (after, ok) := ReconcileStep(c, req, a);
            && (ok <==>
                  && a.clientOk && a.podOk
                  && (req !in c.pods ||
                      match RefName(c.pods[req].containers)
                      case None => false
                      case Some(name) => name != "" && a.secretOk && Key(c.pods[req].namespace, name) in after.secrets))
            && after.pods == c.pods
            && (!ok ==> after == c.(keys := after.keys, failedApplies := after.failedApplies) && c.keys <= after.keys)
  {}

  class Controller {
    var pods: map<Key, Pod>
    var secrets: map<Key, string>
    ghost var keys: seq<DeviceKey>
    ghost var created: nat
    ghost var failedApplies: nat
    ghost var collected: nat
    ghost var madeFor: map<Key, DeviceKey>

    ghost function View(): Cluster
      reads this
    {
      Cluster(pods, secrets, keys, created, failedApplies, collected, madeFor)
    }

    method FindRef(containers: seq<Container>) returns (secretName: string)
      ensures secretName == match RefName(containers) case Some(name) => name case None => ""
    {
      secretName := "";
      for n := 0 to |containers|
        invariant secretName == match RefName(containers[..n]) case Some(name) => name case None => ""
      {
        var container := containers[n];
        assert containers[..n + 1][..n] == containers[..n];
        if container.name == ADAPTER || container.name == WEBUI {
          var entries := container.envFrom;
          var k := 0;
          while k < |entries| && !InjectRef(entries[k])
            invariant k <= |entries| && FirstRef(entries) == FirstRef(entries[k..])
          {
            k := k + 1;
          }
          if k < |entries| {
            secretName := entries[k].name;
          }
        }
      }
      assert containers[..|containers|] == containers;
    }

    method DeviceTag(containers: seq<Container>) returns (tag: string)
      ensures tag == TagOf(containers)
    {
      tag := "tag:tsymbiote-adapter";
      for n := 0 to |containers|
        invariant tag == "tag:tsymbiote-adapter"
        invariant forall k :: 0 <= k < n ==> containers[k].name != WEBUI
      {
        if containers[n].name == WEBUI {
          return "tag:tsymbiote-webui";
        }
      }
    }

    method Reconcile(req: Key, a: Answers) returns (ok: bool)
      modifies this
      ensures (View(), ok) == ReconcileStep(old(View()), req, a)
    {
      if !a.clientOk || !a.podOk {
        return false;
      }
      if req !in pods {
        return true;
      }
      var pod := pods[req];
      var secretName := FindRef(pod.containers);
      if secretName == "" || !a.secretOk {
        return false;
      }
      var secret := Key(pod.namespace, secretName);
      if secret in secrets {
        return true;
      }
      var deviceTag := DeviceTag(pod.containers);
      if a.key.None? {
        return false;
      }
      keys := keys + [DeviceKey(pod.name, deviceTag, a.key.value)];
      if !a.applyOk {
        failedApplies := failedApplies + 1;
        return false;
      }
      secrets := secrets[secret := a.key.value];
      created := created + 1;
      madeFor := madeFor[secret := DeviceKey(pod.name, deviceTag, a.key.value)];
      return true;
    }
  }

  // ----- Whole runs ----------------------------------------------------------------------------------

  datatype Event =
    | PodApplied(p: Pod)
    | PodDeleted(at: Key)
    | SecretCollected(at: Key)
    | Reconciled(req: Key, a: Answers)

  function Step(c: Cluster, e: Event): Cluster {
    match e
    case PodApplied(p) => c.(pods := c.pods[Key(p.namespace, p.name) := p])
    case PodDeleted(at) => c.(pods := c.pods - {at})
    case SecretCollected(at) =>
      if at in c.secrets then c.(secrets := c.secrets - {at}, collected := c.collected + 1) else c
    case Reconciled(req, a) => ReconcileStep(c, req, a).0
  }

  function Run(c: Cluster, es: seq<Event>): Cluster
    decreases |es|
  {
    if es == [] then c else Run(Step(c, es[0]), es[1..])
  }

  /** What the cluster's own events do to pods and secrets. */
  lemma {:induction false} ClusterEventsExact(c: Cluster, e: Event, at: Key)
    requires !e.Reconciled?
    ensures var after := Step(c, e);
            && after.keys == c.keys && after.created == c.created && after.failedApplies == c.failedApplies
            && (at in after.pods <==> if e.PodApplied? then at in c.pods || at == Key(e.p.namespace, e.p.name)
                                      else at in c.pods && e != PodDeleted(at))
            && (at in after.pods ==>
                  after.pods[at] == if e.PodApplied? && at == Key(e.p.namespace, e.p.name) then e.p else c.pods[at])
            && (at in after.secrets <==> at in c.secrets && e != SecretCollected(at))
            && (at in after.secrets ==> after.secrets[at] == c.secrets[at])
            && after.collected == c.collected + if e.SecretCollected? && e.at in c.secrets then 1 else 0
  {}

  ghost predicate Balanced(c: Cluster) {
    && |c.keys| == c.created + c.failedApplies
    && c.created == |c.secrets| + c.collected
  }

  lemma {:induction false} BalancedStep(c: Cluster, e: Event)
    requires Balanced(c)
    ensures Balanced(Step(c, e))
  {
    match e
    case Reconciled(req, a) => ReconcileAsks(c, req, a);
    case SecretCollected(at) =>
      if at in c.secrets {
        assert |c.secrets - {at}| == |c.secrets| - 1 by {
          assert c.secrets.Keys == (c.secrets - {at}).Keys + {at};
        }
      }
    case _ =>
  }

  /** Over any run: every device key asked for is accounted for by a secret created or a failed
      apply, and the secrets there are those created and not collected. */
  lemma {:induction false} KeysAccountedFor(c: Cluster, es: seq<Event>)
    requires Balanced(c)
    ensures Balanced(Run(c, es))
    decreases |es|
  {
    if es != [] {
      BalancedStep(c, es[0]);
      KeysAccountedFor(Step(c, es[0]), es[1..]);
    }
  }

  /** Over any run an existing secret keeps its key until it is collected. */
  lemma {:induction false} SecretNeverRewritten(c: Cluster, es: seq<Event>, at: Key)
    requires at in c.secrets && forall k :: 0 <= k < |es| ==> es[k] != SecretCollected(at)
    ensures at in Run(c, es).secrets && Run(c, es).secrets[at] == c.secrets[at]
    decreases |es|
  {
    if es != [] {
      SecretNeverRewritten(Step(c, es[0]), es[1..], at);
    }
  }

  lemma {:induction false} RunTwo(c: Cluster, d: Event, e: Event)
    ensures Run(c, [d, e]) == Step(Step(c, d), e)
  {
    var c2 := Step(Step(c, d), e);
    assert Run(c2, []) == c2;
    assert [e][1..] == [];
    assert Run(Step(c, d), [e]) == c2;
    assert [d, e][1..] == [e];
  }

  /** An admitted pod whose reference decides gets its own secret, holding a key of its own
      role, by the first reconcile whose calls all succeed. */
  lemma {:induction false} HandshakeCompletes(c: Cluster, p: Pod, image: Option<string>, a: Answers)
    requires Enabled(p) && Default(p, image).Ok?
    requires HasWebUI(p.containers) ==> OwnRefDecides(p)
    requires a.clientOk && a.podOk && a.secretOk && a.key.Some? && a.applyOk
    requires Key(p.namespace, SecretNameFor(p.name)) !in c.secrets
    ensures var q := Default(p, image).value;
            var after := Run(c, [PodApplied(q), Reconciled(Key(p.namespace, p.name), a)]);
            var role := if HasWebUI(p.containers) then "tag:tsymbiote-webui" else "tag:tsymbiote-adapter";
            && Watched(q.labels)
            && after.secrets == c.secrets[Key(p.namespace, SecretNameFor(p.name)) := a.key.value]
            && after.keys == c.keys + [DeviceKey(p.name, role, a.key.value)]
  {
    var q := Default(p, image).value;
    if HasWebUI(p.containers) {
      WebUIHandshakeIff(p, image);
    } else {
      AdapterHandshake(p, image.value);
    }
    RunTwo(c, PodApplied(q), Reconciled(Key(p.namespace, p.name), a));
    assert SecretNameFor(p.name) != "";
    var c1 := Step(c, PodApplied(q));
    assert c1.pods[Key(p.namespace, p.name)] == q;
    assert RefName(q.containers) == Some(SecretNameFor(p.name));
  }

  // ----- Any run after the admission -----------------------------------------------------------------

  /** The pod resolves to this secret. */
  predicate Refers(p: Pod, secret: Key) {
    RefName(p.containers) == Some(secret.name) && p.namespace == secret.namespace
  }

  predicate AllOk(a: Answers) {
    a.clientOk && a.podOk && a.secretOk && a.key.Some? && a.applyOk
  }

  /** The run neither re-applies nor deletes the pod, and does not collect the secret. */
  ghost predicate Undisturbed(es: seq<Event>, at: Key, secret: Key) {
    forall k :: 0 <= k < |es| ==>
      match es[k]
      case PodApplied(p) => Key(p.namespace, p.name) != at
      case PodDeleted(pod) => pod != at
      case SecretCollected(s) => s != secret
      case Reconciled(_, _) => true
  }

  lemma {:induction false} UndisturbedTail(es: seq<Event>, at: Key, secret: Key)
    requires Undisturbed(es, at, secret) && es != []
    ensures Undisturbed(es[1..], at, secret)
  {
    assert forall k :: 0 <= k < |es| - 1 ==> es[1..][k] == es[k + 1];
  }

  lemma {:induction false} NotCollected(es: seq<Event>, at: Key, secret: Key)
    requires Undisturbed(es, at, secret)
    ensures forall k :: 0 <= k < |es| ==> es[k] != SecretCollected(secret)
  {
    forall k | 0 <= k < |es|
      ensures es[k] != SecretCollected(secret)
    {
      var e := es[k];
      if e.SecretCollected? {
        assert e.at != secret;
      }
    }
  }

  /** A fully successful reconcile of the pod, anywhere in such a run, means that its secret is
      there at the end, whatever failed before and whatever else happened. */
  lemma {:induction false} SuccessAnywhereStores(c: Cluster, es: seq<Event>, at: Key, secret: Key, k: nat)
    requires at in c.pods && Refers(c.pods[at], secret) && secret.name != "" && Undisturbed(es, at, secret)
    requires k < |es| && es[k].Reconciled? && es[k].req == at && AllOk(es[k].a)
    ensures secret in Run(c, es).secrets
    decreases |es|
  {
    UndisturbedTail(es, at, secret);
    if k == 0 {
      assert secret in ReconcileStep(c, at, es[0].a).0.secrets;
      NotCollected(es[1..], at, secret);
      SecretNeverRewritten(Step(c, es[0]), es[1..], secret);
    } else {
      assert [es[0]][0] == es[0];
      assert at in Step(c, es[0]).pods && Step(c, es[0]).pods[at] == c.pods[at];
      SuccessAnywhereStores(Step(c, es[0]), es[1..], at, secret, k - 1);
    }
  }

  // ----- Whose key a secret holds -----------------------------------------------------------------------

  /** Every secret holds a key that was asked for, the one recorded for it. */
  ghost predicate KeysMatch(c: Cluster) {
    forall s :: s in c.secrets ==>
      s in c.madeFor && c.madeFor[s].key == c.secrets[s] && c.madeFor[s] in c.keys
  }

  lemma {:induction false} KeysMatchStep(c: Cluster, e: Event)
    requires KeysMatch(c)
    ensures KeysMatch(Step(c, e))
  {}

  lemma {:induction false} KeysMatchRun(c: Cluster, es: seq<Event>)
    requires KeysMatch(c)
    ensures KeysMatch(Run(c, es))
    decreases |es|
  {
    if es != [] {
      KeysMatchStep(c, es[0]);
      KeysMatchRun(Step(c, es[0]), es[1..]);
    }
  }

  ghost predicate HoldsRole(c: Cluster, secret: Key, tag: string) {
    secret in c.secrets ==> secret in c.madeFor && c.madeFor[secret].tag == tag
  }

  predicate RoleOk(p: Pod, secret: Key, tag: string) {
    Refers(p, secret) ==> TagOf(p.containers) == tag
  }

  /** All pods there are that resolve to the secret have this role. */
  ghost predicate RolesAgree(c: Cluster, secret: Key, tag: string) {
    forall at :: at in c.pods ==> RoleOk(c.pods[at], secret, tag)
  }

  /** So do all pods that come. */
  ghost predicate RolesStayAgreed(es: seq<Event>, secret: Key, tag: string) {
    forall k :: 0 <= k < |es| && es[k].PodApplied? ==> RoleOk(es[k].p, secret, tag)
  }

  lemma {:induction false} RoleStep(c: Cluster, e: Event, secret: Key, tag: string)
    requires RolesAgree(c, secret, tag) && HoldsRole(c, secret, tag)
    requires e.PodApplied? ==> RoleOk(e.p, secret, tag)
    ensures RolesAgree(Step(c, e), secret, tag) && HoldsRole(Step(c, e), secret, tag)
  {
    if e.Reconciled? && e.req in c.pods {
      assert RoleOk(c.pods[e.req], secret, tag);
    }
  }

  lemma {:induction false} RoleRun(c: Cluster, es: seq<Event>, secret: Key, tag: string)
    requires RolesAgree(c, secret, tag) && HoldsRole(c, secret, tag) && RolesStayAgreed(es, secret, tag)
    ensures HoldsRole(Run(c, es), secret, tag)
    decreases |es|
  {
    if es != [] {
      RoleStep(c, es[0], secret, tag);
      assert forall k :: 0 <= k < |es| - 1 ==> es[1..][k] == es[k + 1];
      RoleRun(Step(c, es[0]), es[1..], secret, tag);
    }
  }

  ghost predicate OnlyReconciles(es: seq<Event>) {
    forall k :: 0 <= k < |es| ==> es[k].Reconciled?
  }

  /** However the pods there are get reconciled, the secret, once there, holds a key of this role. */
  ghost predicate AlwaysHoldsRole(c: Cluster, secret: Key, tag: string) {
    forall es :: OnlyReconciles(es) ==> HoldsRole(Run(c, es), secret, tag)
  }

  const SUCCESS := Answers(true, true, true, Some(""), true)

  /** Exactly when a missing secret is sure to get a key of the right role: all pods that resolve
      to it have that role. */
  lemma {:induction false} RoleIff(c: Cluster, secret: Key, tag: string)
    requires secret !in c.secrets && secret.name != ""
    ensures AlwaysHoldsRole(c, secret, tag) <==> RolesAgree(c, secret, tag)
  {
    if RolesAgree(c, secret, tag) {
      forall es | OnlyReconciles(es)
        ensures HoldsRole(Run(c, es), secret, tag)
      {
        RoleRun(c, es, secret, tag);
      }
    } else {
      var at :| at in c.pods && !RoleOk(c.pods[at], secret, tag);
      var es := [Reconciled(at, SUCCESS)];
      assert es[1..] == [];
      assert Run(c, es) == Step(c, es[0]);
      assert OnlyReconciles(es) && !HoldsRole(Run(c, es), secret, tag);
    }
  }

  /** The secret is there and holds a device key that was asked for with this role. */
  ghost predicate HoldsKeyOf(c: Cluster, secret: Key, tag: string) {
    && secret in c.secrets && secret in c.madeFor
    && c.madeFor[secret] in c.keys && c.madeFor[secret].key == c.secrets[secret] && c.madeFor[secret].tag == tag
  }

  lemma {:induction false} AdmittedRefers(p: Pod, image: Option<string>)
    requires Enabled(p) && Default(p, image).Ok?
    requires HasWebUI(p.containers) ==> OwnRefDecides(p)
    ensures var q := Default(p, image).value;
            && Watched(q.labels) && Refers(q, Key(p.namespace, SecretNameFor(p.name)))
            && TagOf(q.containers) == TagOf(p.containers)
            && q.namespace == p.namespace && q.name == p.name
  {
    if HasWebUI(p.containers) {
      WebUIHandshakeIff(p, image);
    } else {
      AdapterHandshake(p, image.value);
    }
  }

  /** The handshake over whole runs: after a pod whose reference decides is admitted, in any run
      that leaves the pod and its secret alone, one fully successful reconcile of the pod means that
      the secret is there at the end; and if no other pod of the other role resolves to it, it holds
      a device key of the pod's own role. */
  lemma {:induction false} HandshakeOverRuns(c: Cluster, p: Pod, image: Option<string>, es: seq<Event>, k: nat)
    requires Enabled(p) && Default(p, image).Ok?
    requires HasWebUI(p.containers) ==> OwnRefDecides(p)
    requires Undisturbed(es, Key(p.namespace, p.name), Key(p.namespace, SecretNameFor(p.name)))
    requires k < |es| && es[k].Reconciled? && es[k].req == Key(p.namespace, p.name) && AllOk(es[k].a)
    ensures var secret := Key(p.namespace, SecretNameFor(p.name));
            var admitted := Step(c, PodApplied(Default(p, image).value));
            var after := Run(admitted, es);
            && secret in after.secrets
            && (KeysMatch(c) && secret !in c.secrets
                && RolesAgree(admitted, secret, TagOf(p.containers)) && RolesStayAgreed(es, secret, TagOf(p.containers)) ==>
                  HoldsKeyOf(after, secret, TagOf(p.containers)))
  {
    var secret := Key(p.namespace, SecretNameFor(p.name));
    var q := Default(p, image).value;
    var admitted := Step(c, PodApplied(q));
    AdmittedRefers(p, image);
    assert secret.name != "";
    SuccessAnywhereStores(admitted, es, Key(p.namespace, p.name), secret, k);
    if KeysMatch(c) && secret !in c.secrets
       && RolesAgree(admitted, secret, TagOf(p.containers)) && RolesStayAgreed(es, secret, TagOf(p.containers)) {
      KeysMatchStep(c, PodApplied(q));
      KeysMatchRun(admitted, es);
      RoleRun(admitted, es, secret, TagOf(p.containers));
    }
  }
}
