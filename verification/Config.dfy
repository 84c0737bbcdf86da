/** The broker's configuration: the lookups requests make in it, and the validation that makes them safe. */
module Config {
  import opened Json

  datatype Plan = Plan(name: string, id: string, bindable: Option<bool>)

  datatype Service = Service(name: string, id: string, bindable: bool, planUpdatable: bool, plans: seq<Plan>)

  datatype RegistryValue = RegistryValue(name: string, value: string)

  datatype ListStep = ListStep(name: string, templates: seq<string>)

  datatype TemplateList = TemplateList(registry: seq<RegistryValue>, templates: seq<string>,
      steps: Option<seq<ListStep>>)

  datatype Scope = Unscoped | BrokerLocal | Explicit | InstanceLocal

  datatype Binding = Binding(name: string, service: string, plan: string, instance: TemplateList,
                             bindings: Option<TemplateList>, scope: Scope, registryNamespace: string)

  datatype Template = Template(name: string, body: Option<Json>, singleton: bool)

  datatype Spec = Spec(services: seq<Service>, templates: seq<Template>, bindings: seq<Binding>)

  // ---- Lookups at request time ----

  function GetServiceOffering(services: seq<Service>, id: string): Option<Service> {
    if services == [] then None
    else if services[0].id == id then Some(services[0])
    else GetServiceOffering(services[1..], id)
  }

  function FindPlan(plans: seq<Plan>, id: string): Option<Plan> {
    if plans == [] then None
    else if plans[0].id == id then Some(plans[0])
    else FindPlan(plans[1..], id)
  }

  function GetServicePlan(spec: Spec, serviceId: string, planId: string): Option<Plan> {
    match GetServiceOffering(spec.services, serviceId)
    case None => None
    case Some(service) => FindPlan(service.plans, planId)
  }

  /** The check every request's service and plan must pass. */
  predicate ValidateServicePlan(spec: Spec, serviceId: string, planId: string) {
    GetServicePlan(spec, serviceId, planId).Some?
  }

  function IsBindable(service: Service, plan: Plan): bool {
    if plan.bindable.Some? then plan.bindable.value else service.bindable
  }

  predicate VerifyBindable(spec: Spec, serviceId: string, planId: string) {
    match GetServiceOffering(spec.services, serviceId)
    case None => false
    case Some(service) =>
      FindPlan(service.plans, planId).Some? && IsBindable(service, FindPlan(service.plans, planId).value)
  }

  predicate PlanUpdatable(spec: Spec, serviceId: string, planId: string, newPlanId: string) {
    match GetServiceOffering(spec.services, serviceId)
    case None => false
    case Some(service) => service.planUpdatable || planId == newPlanId
  }

  /** From identifiers to the names the configuration uses; written separately from the checks above. */
  function GetServiceAndPlanNames(services: seq<Service>, serviceId: string, planId: string): Option<(string, string)> {
    if services == [] then None
    else if services[0].id == serviceId then
      match FindPlan(services[0].plans, planId)
      case None => None
      case Some(plan) => Some((services[0].name, plan.name))
    else GetServiceAndPlanNames(services[1..], serviceId, planId)
  }

  function GetBinding(bindings: seq<Binding>, service: string, plan: string): Option<Binding> {
    if bindings == [] then None
    else if bindings[0].service == service && bindings[0].plan == plan then Some(bindings[0])
    else GetBinding(bindings[1..], service, plan)
  }

  function GetTemplateBindings(spec: Spec, serviceId: string, planId: string): Option<Binding> {
    match GetServiceAndPlanNames(spec.services, serviceId, planId)
    case None => None
    case Some((service, plan)) => GetBinding(spec.bindings, service, plan)
  }

  function GetTemplate(templates: seq<Template>, name: string): Option<Template> {
    if templates == [] then None
    else if templates[0].name == name then Some(templates[0])
    else GetTemplate(templates[1..], name)
  }

  // ---- Validation ----

  datatype Fault =
    | Unbound(service: string, plan: string)
    | NotBindable(service: string, plan: string, binding: string)
    | NoBindingTemplates(service: string, plan: string, binding: string)
    | DoesNothing(binding: string, forInstances: bool)
    | NoTemplate(binding: string, template: string, forInstances: bool)

  /** The fault as the status message tells it. */
  function Text(fault: Fault): string {
    "configuration is invalid: " +
    match fault
    case Unbound(s, p) => "service plan '" + p + "' for offering '" + s + "' does not have a binding"
    case NotBindable(s, p, b) =>
      "service plan '" + p + "' for offering '" + s + "' not bindable, but binding '" + b
          + "' defines service binding configuarion"
    case NoBindingTemplates(s, p, b) =>
      "service plan '" + p + "' for offering '" + s + "' bindable, but binding '" + b
          + "' does not define service binding configuarion"
    case DoesNothing(b, instances) =>
      "binding '" + b + "' does nothing for service " + if instances then "instances" else "bindings"
    case NoTemplate(b, t, instances) =>
      "template '" + t + "', referenced by binding '" + b + "' service "
          + (if instances then "instance" else "binding") + ", must exist"
  }

  lemma {:induction false} FaultsAreTold(fault: Fault)
    ensures Text(fault) != ""
  {
    assert Text(fault)[0] == 'c';
  }

  function CheckPlans(spec: Spec, service: Service, plans: seq<Plan>): Option<Fault> {
    if plans == [] then None
    else
      match GetBinding(spec.bindings, service.name, plans[0].name)
      case None => Some(Unbound(service.name, plans[0].name))
      case Some(binding) =>
        if !IsBindable(service, plans[0]) && binding.bindings.Some? then
          Some(NotBindable(service.name, plans[0].name, binding.name))
        else if IsBindable(service, plans[0]) && binding.bindings.None? then
          Some(NoBindingTemplates(service.name, plans[0].name, binding.name))
        else CheckPlans(spec, service, plans[1..])
  }

  function CheckServices(spec: Spec, services: seq<Service>): Option<Fault> {
    if services == [] then None
    else match CheckPlans(spec, services[0], services[0].plans)
      case Some(fault) => Some(fault)
      case None => CheckServices(spec, services[1..])
  }

  function CheckNames(spec: Spec, binding: string, names: seq<string>, forInstances: bool): Option<Fault> {
    if names == [] then None
    else if GetTemplate(spec.templates, names[0]).None? then Some(NoTemplate(binding, names[0], forInstances))
    else CheckNames(spec, binding, names[1..], forInstances)
  }

  function CheckBinding(spec: Spec, b: Binding): Option<Fault> {
    if b.instance.registry == [] && b.instance.templates == [] then Some(DoesNothing(b.name, true))
    else if b.bindings.Some? && b.bindings.value.registry == [] && b.bindings.value.templates == [] then
      Some(DoesNothing(b.name, false))
    else match CheckNames(spec, b.name, b.instance.templates, true)
      case Some(fault) => Some(fault)
      case None => if b.bindings.Some? then CheckNames(spec, b.name, b.bindings.value.templates, false) else None
  }

  function CheckBindings(spec: Spec, bindings: seq<Binding>): Option<Fault> {
    if bindings == [] then None
    else match CheckBinding(spec, bindings[0])
      case Some(fault) => Some(fault)
      case None => CheckBindings(spec, bindings[1..])
  }

  /** The first fault found, if any. */
  function Validate(spec: Spec): Option<Fault> {
    match CheckServices(spec, spec.services)
    case Some(fault) => Some(fault)
    case None => CheckBindings(spec, spec.bindings)
  }

  // ---- What validation means ----

  predicate DoesSomething(list: TemplateList) {
    list.registry != [] || list.templates != []
  }

  predicate Defined(spec: Spec, name: string) {
    exists t :: t in spec.templates && t.name == name
  }

  predicate Resolves(spec: Spec, list: TemplateList) {
    forall n | n in list.templates :: Defined(spec, n)
  }

  /** Binding `b` is the first one for the service and plan; any others are never looked at. */
  predicate FirstFor(bindings: seq<Binding>, service: string, plan: string, b: nat) {
    && b < |bindings| && bindings[b].service == service && bindings[b].plan == plan
    && forall c | 0 <= c < b :: bindings[c].service != service || bindings[c].plan != plan
  }

  /** The plan says that it is bindable, or does not say and its service is. */
  predicate Bindable(service: Service, plan: Plan) {
    plan.bindable == Some(true) || (plan.bindable == None && service.bindable)
  }

  /** The plan has a binding, and that has templates for bindings exactly if the plan is bindable. */
  ghost predicate PlanSound(spec: Spec, service: Service, plan: Plan) {
    exists b: nat :: FirstFor(spec.bindings, service.name, plan.name, b)
                     && (Bindable(service, plan) <==> spec.bindings[b].bindings.Some?)
  }

  /** What a configuration must satisfy, said without the lookups that use it. */
  ghost predicate Sound(spec: Spec) {
    && (forall s, p | s in spec.services && p in s.plans :: PlanSound(spec, s, p))
    && (forall b | b in spec.bindings ::
          && DoesSomething(b.instance) && Resolves(spec, b.instance)
          && (b.bindings.Some? ==> DoesSomething(b.bindings.value) && Resolves(spec, b.bindings.value)))
  }

  /** The binding looked up is the first one for the service and plan. */
  lemma {:induction false} FirstIsFound(bindings: seq<Binding>, service: string, plan: string, b: nat)
    requires FirstFor(bindings, service, plan, b)
    ensures GetBinding(bindings, service, plan) == Some(bindings[b])
    decreases b
  {
    if b > 0 {
      assert forall c | 0 <= c < b - 1 :: bindings[1..][c] == bindings[c + 1];
      FirstIsFound(bindings[1..], service, plan, b - 1);
    }
  }

  lemma {:induction false} FoundIsFirst(bindings: seq<Binding>, service: string, plan: string) returns (b: nat)
    requires GetBinding(bindings, service, plan).Some?
    ensures FirstFor(bindings, service, plan, b)
  {
    if bindings[0].service == service && bindings[0].plan == plan {
      b := 0;
    } else {
      b := FoundIsFirst(bindings[1..], service, plan);
      b := b + 1;
      assert forall c | 1 <= c < b :: bindings[c] == bindings[1..][c - 1];
    }
  }

  lemma {:induction false} PlanChecked(spec: Spec, service: Service, plan: Plan)
    ensures PlanSound(spec, service, plan) <==>
              var b := GetBinding(spec.bindings, service.name, plan.name);
              b.Some? && (IsBindable(service, plan) <==> b.value.bindings.Some?)
  {
    if GetBinding(spec.bindings, service.name, plan.name).Some? {
      var b := FoundIsFirst(spec.bindings, service.name, plan.name);
      FirstIsFound(spec.bindings, service.name, plan.name, b);
    }
    if b: nat :| FirstFor(spec.bindings, service.name, plan.name, b)
                 && (Bindable(service, plan) <==> spec.bindings[b].bindings.Some?) {
      FirstIsFound(spec.bindings, service.name, plan.name, b);
    }
  }

  lemma {:induction false} TemplateFound(templates: seq<Template>, name: string)
    ensures GetTemplate(templates, name).Some? <==> exists t :: t in templates && t.name == name
    ensures GetTemplate(templates, name).Some? ==>
              GetTemplate(templates, name).value in templates && GetTemplate(templates, name).value.name == name
  {
    if templates != [] {
      TemplateFound(templates[1..], name);
      assert forall t :: t in templates <==> t == templates[0] || t in templates[1..];
    }
  }

  lemma {:induction false} BindingFound(bindings: seq<Binding>, service: string, plan: string)
    ensures GetBinding(bindings, service, plan).Some? <==>
              exists b :: b in bindings && b.service == service && b.plan == plan
    ensures var r := GetBinding(bindings, service, plan);
            r.Some? ==> r.value in bindings && r.value.service == service && r.value.plan == plan
  {
    if bindings != [] {
      BindingFound(bindings[1..], service, plan);
      assert forall b :: b in bindings <==> b == bindings[0] || b in bindings[1..];
    }
  }

  lemma {:induction false} PlansChecked(spec: Spec, service: Service, plans: seq<Plan>)
    ensures CheckPlans(spec, service, plans).None? <==>
              forall p | p in plans :: PlanSound(spec, service, p)
  {
    if plans != [] {
      PlanChecked(spec, service, plans[0]);
      PlansChecked(spec, service, plans[1..]);
      assert forall p :: p in plans <==> p == plans[0] || p in plans[1..];
    }
  }

  lemma {:induction false} ServicesChecked(spec: Spec, services: seq<Service>)
    ensures CheckServices(spec, services).None? <==> forall s | s in services :: CheckPlans(spec, s, s.plans).None?
  {
    if services != [] {
      ServicesChecked(spec, services[1..]);
      assert forall s :: s in services <==> s == services[0] || s in services[1..];
    }
  }

  lemma {:induction false} NamesChecked(spec: Spec, binding: string, names: seq<string>, forInstances: bool)
    ensures CheckNames(spec, binding, names, forInstances).None? <==>
              forall n | n in names :: Defined(spec, n)
  {
    if names != [] {
      TemplateFound(spec.templates, names[0]);
      assert Defined(spec, names[0]) <==> GetTemplate(spec.templates, names[0]).Some?;
      NamesChecked(spec, binding, names[1..], forInstances);
      assert forall n :: n in names <==> n == names[0] || n in names[1..];
    }
  }

  lemma {:induction false} BindingsChecked(spec: Spec, bindings: seq<Binding>)
    ensures CheckBindings(spec, bindings).None? <==> forall b | b in bindings :: CheckBinding(spec, b).None?
  {
    if bindings != [] {
      BindingsChecked(spec, bindings[1..]);
      assert forall b :: b in bindings <==> b == bindings[0] || b in bindings[1..];
    }
  }

  lemma {:induction false} BindingChecked(spec: Spec, b: Binding)
    ensures CheckBinding(spec, b).None? <==>
              && DoesSomething(b.instance) && Resolves(spec, b.instance)
              && (b.bindings.Some? ==> DoesSomething(b.bindings.value) && Resolves(spec, b.bindings.value))
  {
    NamesChecked(spec, b.name, b.instance.templates, true);
    if b.bindings.Some? {
      NamesChecked(spec, b.name, b.bindings.value.templates, false);
    }
  }

  /** Validation accepts exactly the sound configurations. */
  lemma {:induction false} ValidMeansSound(spec: Spec)
    ensures Validate(spec).None? <==> Sound(spec)
  {
    ServicesChecked(spec, spec.services);
    forall s | s in spec.services { PlansChecked(spec, s, s.plans); }
    BindingsChecked(spec, spec.bindings);
    forall b | b in spec.bindings { BindingChecked(spec, b); }
  }

  /** The configuration does have that fault. */
  ghost predicate Has(spec: Spec, fault: Fault) {
    match fault
    case Unbound(s, p) =>
      && Offers(spec, s, p) && forall b | b in spec.bindings :: b.service != s || b.plan != p
    case NotBindable(s, p, name) => Mismatched(spec, s, p, name, false)
    case NoBindingTemplates(s, p, name) => Mismatched(spec, s, p, name, true)
    case DoesNothing(name, instances) =>
      exists b | b in spec.bindings :: b.name == name
        && (if instances then !DoesSomething(b.instance) else b.bindings.Some? && !DoesSomething(b.bindings.value))
    case NoTemplate(name, t, instances) =>
      && !Defined(spec, t)
      && exists b | b in spec.bindings :: b.name == name
           && (if instances then t in b.instance.templates else b.bindings.Some? && t in b.bindings.value.templates)
  }

  ghost predicate Offers(spec: Spec, service: string, plan: string) {
    exists s, p | s in spec.services && p in s.plans :: s.name == service && p.name == plan
  }

  /** The plan is bindable or not, and its first binding says the contrary. */
  ghost predicate Mismatched(spec: Spec, service: string, plan: string, name: string, bindable: bool) {
    exists s, p, b: nat | s in spec.services && p in s.plans && FirstFor(spec.bindings, service, plan, b) ::
      && s.name == service && p.name == plan && (Bindable(s, p) <==> bindable)
      && spec.bindings[b].name == name && (spec.bindings[b].bindings.Some? <==> !bindable)
  }

  lemma {:induction false} PlanFaultIsReal(spec: Spec, service: Service, plans: seq<Plan>)
    requires service in spec.services && (forall p | p in plans :: p in service.plans)
    requires CheckPlans(spec, service, plans).Some?
    ensures Has(spec, CheckPlans(spec, service, plans).value)
  {
    var plan := plans[0];
    assert plan in service.plans && Offers(spec, service.name, plan.name);
    match GetBinding(spec.bindings, service.name, plan.name)
    case None => BindingFound(spec.bindings, service.name, plan.name);
    case Some(binding) =>
      if IsBindable(service, plan) == binding.bindings.Some? {
        PlanFaultIsReal(spec, service, plans[1..]);
      } else {
        var b := FoundIsFirst(spec.bindings, service.name, plan.name);
        FirstIsFound(spec.bindings, service.name, plan.name, b);
        assert Mismatched(spec, service.name, plan.name, binding.name, IsBindable(service, plan));
      }
  }

  lemma {:induction false} ServiceFaultIsReal(spec: Spec, services: seq<Service>)
    requires (forall s | s in services :: s in spec.services) && CheckServices(spec, services).Some?
    ensures Has(spec, CheckServices(spec, services).value)
  {
    if CheckPlans(spec, services[0], services[0].plans).Some? {
      PlanFaultIsReal(spec, services[0], services[0].plans);
    } else {
      ServiceFaultIsReal(spec, services[1..]);
    }
  }

  lemma {:induction false} UndefinedIsNamed(spec: Spec, binding: string, names: seq<string>, forInstances: bool)
    requires CheckNames(spec, binding, names, forInstances).Some?
    ensures var fault := CheckNames(spec, binding, names, forInstances).value;
            && fault.NoTemplate? && fault.binding == binding && fault.forInstances == forInstances
            && fault.template in names && !Defined(spec, fault.template)
  {
    TemplateFound(spec.templates, names[0]);
    if GetTemplate(spec.templates, names[0]).Some? {
      UndefinedIsNamed(spec, binding, names[1..], forInstances);
    }
  }

  lemma {:induction false} BindingFaultIsReal(spec: Spec, bindings: seq<Binding>)
    requires (forall b | b in bindings :: b in spec.bindings) && CheckBindings(spec, bindings).Some?
    ensures Has(spec, CheckBindings(spec, bindings).value)
  {
    var b := bindings[0];
    assert b in spec.bindings;
    if CheckBinding(spec, b).None? {
      BindingFaultIsReal(spec, bindings[1..]);
    } else {
      if CheckNames(spec, b.name, b.instance.templates, true).Some? {
        UndefinedIsNamed(spec, b.name, b.instance.templates, true);
      }
      if b.bindings.Some? && CheckNames(spec, b.name, b.bindings.value.templates, false).Some? {
        UndefinedIsNamed(spec, b.name, b.bindings.value.templates, false);
      }
    }
  }

  /** Validation complains of a fault the configuration has. */
  lemma {:induction false} FaultIsReal(spec: Spec)
    requires Validate(spec).Some?
    ensures Has(spec, Validate(spec).value)
  {
    if CheckServices(spec, spec.services).Some? {
      ServiceFaultIsReal(spec, spec.services);
    } else {
      BindingFaultIsReal(spec, spec.bindings);
    }
  }

  /** Offering `n` is the first with that id. */
  predicate FirstOffering(services: seq<Service>, id: string, n: nat) {
    n < |services| && services[n].id == id && forall m | 0 <= m < n :: services[m].id != id
  }

  predicate FirstPlan(plans: seq<Plan>, id: string, n: nat) {
    n < |plans| && plans[n].id == id && forall m | 0 <= m < n :: plans[m].id != id
  }

  predicate FirstTemplate(templates: seq<Template>, name: string, n: nat) {
    n < |templates| && templates[n].name == name && forall m | 0 <= m < n :: templates[m].name != name
  }

  /** The first offering with the id is found, and nothing exactly if there is none. */
  lemma {:induction false} FirstOfferingFound(services: seq<Service>, id: string) returns (n: nat)
    ensures match GetServiceOffering(services, id)
            case Some(service) => FirstOffering(services, id, n) && services[n] == service
            case None => forall m | 0 <= m < |services| :: services[m].id != id
  {
    n := 0;
    if services != [] && services[0].id != id {
      n := FirstOfferingFound(services[1..], id);
      assert forall m | 0 <= m < |services| - 1 :: services[1..][m] == services[m + 1];
      n := n + 1;
    }
  }

  lemma {:induction false} FirstPlanFound(plans: seq<Plan>, id: string) returns (n: nat)
    ensures match FindPlan(plans, id)
            case Some(plan) => FirstPlan(plans, id, n) && plans[n] == plan
            case None => forall m | 0 <= m < |plans| :: plans[m].id != id
  {
    n := 0;
    if plans != [] && plans[0].id != id {
      n := FirstPlanFound(plans[1..], id);
      assert forall m | 0 <= m < |plans| - 1 :: plans[1..][m] == plans[m + 1];
      n := n + 1;
    }
  }

  lemma {:induction false} FirstTemplateFound(templates: seq<Template>, name: string) returns (n: nat)
    ensures match GetTemplate(templates, name)
            case Some(template) => FirstTemplate(templates, name, n) && templates[n] == template
            case None => forall m | 0 <= m < |templates| :: templates[m].name != name
  {
    n := 0;
    if templates != [] && templates[0].name != name {
      n := FirstTemplateFound(templates[1..], name);
      assert forall m | 0 <= m < |templates| - 1 :: templates[1..][m] == templates[m + 1];
      n := n + 1;
    }
  }

  lemma {:induction false} OfferingFound(services: seq<Service>, id: string, planId: string)
    ensures var r := GetServiceOffering(services, id);
            && (r.Some? ==> r.value in services && r.value.id == id)
            && GetServiceAndPlanNames(services, id, planId)
                 == if r.None? || FindPlan(r.value.plans, planId).None? then None
                    else Some((r.value.name, FindPlan(r.value.plans, planId).value.name))
  {
    if services != [] {
      OfferingFound(services[1..], id, planId);
    }
  }

  /** Positions of the offering, plan and binding a request's service and plan stand for. */
  predicate StandsFor(spec: Spec, serviceId: string, planId: string, n: nat, m: nat, b: nat) {
    && FirstOffering(spec.services, serviceId, n) && FirstPlan(spec.services[n].plans, planId, m)
    && FirstFor(spec.bindings, spec.services[n].name, spec.services[n].plans[m].name, b)
  }

  /** A service and plan are accepted exactly if the first offering with that id has a plan with that one. */
  lemma {:induction false} AcceptedIfOffered(spec: Spec, serviceId: string, planId: string) returns (n: nat, m: nat)
    ensures ValidateServicePlan(spec, serviceId, planId) <==>
              exists i: nat, j: nat ::
                FirstOffering(spec.services, serviceId, i) && FirstPlan(spec.services[i].plans, planId, j)
    ensures ValidateServicePlan(spec, serviceId, planId) ==>
              FirstOffering(spec.services, serviceId, n) && FirstPlan(spec.services[n].plans, planId, m)
  {
    n := FirstOfferingFound(spec.services, serviceId);
    m := 0;
    if FirstOffering(spec.services, serviceId, n) {
      m := FirstPlanFound(spec.services[n].plans, planId);
      forall i: nat | FirstOffering(spec.services, serviceId, i) ensures i == n {
        assert spec.services[i].id == serviceId;
      }
      forall j: nat | FirstPlan(spec.services[n].plans, planId, j)
        ensures FindPlan(spec.services[n].plans, planId).Some?
      {
        assert spec.services[n].plans[j].id == planId;
      }
    }
  }

  /** Its templates are those of the first binding for the names of that offering and plan. */
  lemma {:induction false} BindingStandsFor(spec: Spec, serviceId: string, planId: string, n: nat, m: nat, b: nat)
    requires StandsFor(spec, serviceId, planId, n, m, b)
    ensures GetTemplateBindings(spec, serviceId, planId) == Some(spec.bindings[b])
  {
    var service := spec.services[n];
    var i := FirstOfferingFound(spec.services, serviceId);
    var j := FirstPlanFound(service.plans, planId);
    assert service.plans[m].id == planId;
    OfferingFound(spec.services, serviceId, planId);
    FirstIsFound(spec.bindings, service.name, service.plans[m].name, b);
  }

  lemma {:induction false} PlanFound(plans: seq<Plan>, id: string)
    ensures FindPlan(plans, id).Some? ==> FindPlan(plans, id).value in plans && FindPlan(plans, id).value.id == id
  {
    if plans != [] {
      PlanFound(plans[1..], id);
    }
  }

  /**
   Under a validated configuration every service and plan a request may name has its templates: the binding is
   found, it is bindable exactly when it has templates for bindings, and all template names it lists resolve.
   Nothing is assumed unique.
  */
  lemma {:induction false} ValidatedLookupsSucceed(spec: Spec, serviceId: string, planId: string)
    requires Validate(spec).None? && ValidateServicePlan(spec, serviceId, planId)
    ensures var b := GetTemplateBindings(spec, serviceId, planId);
            && b.Some?
            && (VerifyBindable(spec, serviceId, planId) <==> b.value.bindings.Some?)
            && (forall n | n in b.value.instance.templates :: GetTemplate(spec.templates, n).Some?)
            && (b.value.bindings.Some? ==>
                forall n | n in b.value.bindings.value.templates :: GetTemplate(spec.templates, n).Some?)
  {
    ValidMeansSound(spec);
    OfferingFound(spec.services, serviceId, planId);
    var service := GetServiceOffering(spec.services, serviceId).value;
    PlanFound(service.plans, planId);
    var plan := FindPlan(service.plans, planId).value;
    BindingFound(spec.bindings, service.name, plan.name);
    PlanChecked(spec, service, plan);
    var b := GetTemplateBindings(spec, serviceId, planId).value;
    forall n | n in b.instance.templates ensures GetTemplate(spec.templates, n).Some? {
      TemplateFound(spec.templates, n);
    }
    if b.bindings.Some? {
      forall n | n in b.bindings.value.templates ensures GetTemplate(spec.templates, n).Some? {
        TemplateFound(spec.templates, n);
      }
    }
  }

  /** The steps a creation goes through: the configured ones, or else one with all the templates listed. */
  function StepsOf(list: TemplateList): seq<ListStep> {
    if list.steps.Some? then list.steps.value else [ListStep("default", list.templates)]
  }

  /** The templates of the first names, or the first name there is none for. */
  function Collect(templates: seq<Template>, names: seq<string>): Result<seq<Template>>
    decreases |names|
  {
    if names == [] then Ok([])
    else
      match Collect(templates, names[..|names| - 1])
      case Err(name) => Err(name)
      case Ok(before) =>
        var name := names[|names| - 1];
        match GetTemplate(templates, name)
        case None => Err(name)
        case Some(template) => Ok(before + [template])
  }

  function CollectSteps(templates: seq<Template>, steps: seq<ListStep>): Result<seq<seq<Template>>>
    decreases |steps|
  {
    if steps == [] then Ok([])
    else
      match CollectSteps(templates, steps[..|steps| - 1])
      case Err(name) => Err(name)
      case Ok(before) =>
        match Collect(templates, steps[|steps| - 1].templates)
        case Err(name) => Err(name)
        case Ok(found) => Ok(before + [found])
  }

  /** Creation's loop over the steps and the names in them; it ends at the first name that does not resolve. */
  method LookUpSteps(spec: Spec, list: TemplateList) returns (r: Result<seq<seq<Template>>>)
    ensures r == CollectSteps(spec.templates, StepsOf(list))
  {
    var steps := if list.steps.Some? then list.steps.value else [ListStep("default", list.templates)];
    var found: seq<seq<Template>> := [];
    for i := 0 to |steps|
      invariant CollectSteps(spec.templates, steps[..i]) == Ok(found)
    {
      assert steps[..i + 1][..i] == steps[..i];
      var names := steps[i].templates;
      var inStep: seq<Template> := [];
      for j := 0 to |names|
        invariant Collect(spec.templates, names[..j]) == Ok(inStep)
      {
        assert names[..j + 1][..j] == names[..j];
        var template := GetTemplate(spec.templates, names[j]);
        if template.None? {
          CollectStops(spec.templates, names, j);
          CollectStepsStops(spec.templates, steps, i, names[j]);
          return Err(names[j]);
        }
        inStep := inStep + [template.value];
      }
      assert names[..|names|] == names;
      found := found + [inStep];
    }
    assert steps[..|steps|] == steps;
    return Ok(found);
  }

  lemma {:induction false} CollectStops(templates: seq<Template>, names: seq<string>, j: nat)
    requires j < |names| && Collect(templates, names[..j]).Ok? && GetTemplate(templates, names[j]).None?
    ensures Collect(templates, names) == Err(names[j])
    decreases |names|
  {
    var before := names[..|names| - 1];
    if j < |before| {
      assert before[..j] == names[..j];
      CollectStops(templates, before, j);
    }
  }

  lemma {:induction false} CollectStepsStops(templates: seq<Template>, steps: seq<ListStep>, i: nat, name: string)
    requires i < |steps| && CollectSteps(templates, steps[..i]).Ok?
    requires Collect(templates, steps[i].templates) == Err(name)
    ensures CollectSteps(templates, steps) == Err(name)
    decreases |steps|
  {
    var before := steps[..|steps| - 1];
    if i < |before| {
      assert before[..i] == steps[..i];
      CollectStepsStops(templates, before, i, name);
    }
  }

  predicate Named(spec: Spec, found: seq<Template>, names: seq<string>) {
    |found| == |names| && forall j | 0 <= j < |names| :: found[j] in spec.templates && found[j].name == names[j]
  }

  /** The loop over one step's names finds every one that is defined, in order, up to the first that is not. */
  lemma {:induction false} Collected(spec: Spec, names: seq<string>)
    ensures var r := Collect(spec.templates, names);
            match r
            case Ok(found) => Named(spec, found, names)
            case Err(name) => exists j | 0 <= j < |names| ::
              && names[j] == name && !Defined(spec, name) && forall k | 0 <= k < j :: Defined(spec, names[k])
    decreases |names|
  {
    if names != [] {
      var before := names[..|names| - 1];
      Collected(spec, before);
      TemplateFound(spec.templates, names[|names| - 1]);
      match Collect(spec.templates, before)
      case Ok(found) =>
        forall k | 0 <= k < |before| ensures Defined(spec, names[k]) {
          assert found[k] in spec.templates && found[k].name == before[k] == names[k];
        }
      case Err(name) =>
        var j :|
          && 0 <= j < |before| && before[j] == name && !Defined(spec, name)
          && forall k | 0 <= k < j :: Defined(spec, before[k]);
        assert names[j] == name && forall k | 0 <= k < j :: names[k] == before[k];
    }
  }

  predicate AllDefined(spec: Spec, steps: seq<ListStep>) {
    forall i, j | 0 <= i < |steps| && 0 <= j < |steps[i].templates| :: Defined(spec, steps[i].templates[j])
  }

  /** Creation finds its templates exactly if all names in its steps are those of templates, and then they are those. */
  lemma {:induction false} StepsCollected(spec: Spec, steps: seq<ListStep>)
    ensures var r := CollectSteps(spec.templates, steps);
            && (r.Ok? <==> AllDefined(spec, steps))
            && (r.Ok? ==>
                  |r.value| == |steps| && forall i | 0 <= i < |steps| :: Named(spec, r.value[i], steps[i].templates))
            && (r.Err? ==> !Defined(spec, r.error))
    decreases |steps|
  {
    if steps != [] {
      var n := |steps| - 1;
      var before := steps[..n];
      StepsCollected(spec, before);
      Collected(spec, steps[n].templates);
      assert forall i | 0 <= i < n :: before[i] == steps[i];
      var last := Collect(spec.templates, steps[n].templates);
      if last.Ok? {
        forall j | 0 <= j < |steps[n].templates| ensures Defined(spec, steps[n].templates[j]) {
          assert last.value[j] in spec.templates && last.value[j].name == steps[n].templates[j];
        }
      }
    }
  }

  /**
   Names inside steps are not validated: under a validated configuration creation finds all its templates if and
   only if every name in configured steps, if there are any, happens to be that of a template.
  */
  lemma {:induction false} StepLookups(spec: Spec, serviceId: string, planId: string)
    requires Validate(spec).None? && ValidateServicePlan(spec, serviceId, planId)
    ensures var b := GetTemplateBindings(spec, serviceId, planId);
            && b.Some?
            && (CollectSteps(spec.templates, StepsOf(b.value.instance)).Ok? <==>
                  (b.value.instance.steps.Some? ==> AllDefined(spec, b.value.instance.steps.value)))
  {
    ValidatedLookupsSucceed(spec, serviceId, planId);
    var list := GetTemplateBindings(spec, serviceId, planId).value.instance;
    StepsCollected(spec, StepsOf(list));
    if list.steps.None? {
      forall j | 0 <= j < |list.templates| ensures Defined(spec, list.templates[j]) {
        TemplateFound(spec.templates, list.templates[j]);
      }
    }
  }

  /** This configuration is valid, and its only step names a template that does not exist. */
  lemma {:induction false} StepsAreNotValidated() returns (spec: Spec)
    ensures Validate(spec).None? && ValidateServicePlan(spec, "s", "p")
    ensures var b := GetTemplateBindings(spec, "s", "p");
            b.Some? && CollectSteps(spec.templates, StepsOf(b.value.instance)) == Err("missing")
  {
    var step := ListStep("first", ["missing"]);
    var list := TemplateList([RegistryValue("k", "v")], [], Some([step]));
    var binding := Binding("b", "service", "plan", list, None, BrokerLocal, "");
    var plan := Plan("plan", "p", None);
    var service := Service("service", "s", false, false, [plan]);
    spec := Spec([service], [], [binding]);
    assert GetBinding(spec.bindings, "service", "plan") == Some(binding);
    assert CheckPlans(spec, service, [plan][1..]) == None;
    assert CheckPlans(spec, service, [plan]) == None;
    assert CheckServices(spec, [service]) == None;
    assert CheckNames(spec, "b", [], true) == None;
    assert CheckBindings(spec, [binding]) == None;
    ValidatedLookupsSucceed(spec, "s", "p");
    assert GetServiceAndPlanNames(spec.services, "s", "p") == Some(("service", "plan"));
    assert step in StepsOf(list) && "missing" in step.templates;
    assert GetTemplate(spec.templates, "missing").None?;
  }
}
