/** The component registry of the UI library and the dispatch that turns a
    registered name into either its raw loader or a lazily wrapped
    asynchronous component, together with the bundle-size helpers. */
module ComponentLoader {
  import opened Wrappers

  /** A registry loader: a zero-argument dynamic import, identified here by
      the module path it imports. Invoking it is framework work and is not
      modelled. */
  datatype Loader = Import(path: string)

  /** A placeholder component shown while loading or after a failure. */
  datatype Placeholder = Placeholder(name: string)

  /** The options `createLazyComponent` recognises; `None` is an absent
      (`undefined`) option. */
  datatype LazyOptions = LazyOptions(
    loadingComponent: Option<Placeholder>,
    errorComponent: Option<Placeholder>,
    delay: Option<int>,
    timeout: Option<int>)

  /** The configuration handed to `defineAsyncComponent`. */
  datatype AsyncComponent = AsyncComponent(
    loader: Loader,
    loadingComponent: Option<Placeholder>,
    errorComponent: Option<Placeholder>,
    delay: int,
    timeout: int)

  /** What `loadComponent` hands back: the registry loader itself, or an
      asynchronous component wrapping it. */
  datatype Loaded = Raw(loader: Loader) | Lazy(component: AsyncComponent)

  const DefaultDelay: int := 200
  const DefaultTimeout: int := 3000
  const ComplexDelay: int := 100
  const ComplexTimeout: int := 5000

  const Registry: map<string, Loader> := map[
    "Button" := Import("~/components/ui/button.vue"),
    "Card" := Import("~/components/ui/card.vue"),
    "CardHeader" := Import("~/components/ui/card-header.vue"),
    "CardContent" := Import("~/components/ui/card-content.vue"),
    "CardFooter" := Import("~/components/ui/card-footer.vue"),
    "Input" := Import("~/components/ui/input.vue"),
    "Dialog" := Import("~/components/ui/dialog.vue"),
    "Select" := Import("~/components/ui/select.vue")
  ]

  /** The names that are always wrapped lazily. */
  const ComplexComponents: seq<string> := ["Dialog", "Select"]

  const AllVariants: seq<string> := ["default", "destructive", "outline", "secondary", "ghost", "link"]
  const AllSizes: seq<string> := ["default", "sm", "lg", "icon"]

  /** The message of the error thrown for an unregistered name. */
  function NotFoundMessage(name: string): string {
    "Component \"" + name + "\" not found in registry"
  }

  /** Wraps `loader` into an asynchronous component; `??` replaces only an
      absent option, so an explicit 0 is kept. */
  function CreateLazyComponent(loader: Loader, options: LazyOptions): (c: AsyncComponent)
    ensures c.loader == loader
    ensures c.loadingComponent == options.loadingComponent
    ensures c.errorComponent == options.errorComponent
    ensures options.delay.Some? ==> c.delay == options.delay.value
    ensures options.delay.None? ==> c.delay == DefaultDelay
    ensures options.timeout.Some? ==> c.timeout == options.timeout.value
    ensures options.timeout.None? ==> c.timeout == DefaultTimeout
  {
    AsyncComponent(loader, options.loadingComponent, options.errorComponent,
                   options.delay.GetOr(DefaultDelay), options.timeout.GetOr(DefaultTimeout))
  }

  /** Looks `name` up in the registry: unknown names fail with the
      not-found message, complex names are wrapped with delay 100 and
      timeout 5000, every other name yields its registry loader unchanged. */
  function LoadComponent(name: string): (r: Result<Loaded, string>)
    ensures r.Failure? <==> name !in Registry
    ensures r.Failure? ==> r.error == NotFoundMessage(name)
    ensures r.Success? ==> (r.value.Lazy? <==> name == "Dialog" || name == "Select")
    ensures r.Success? && r.value.Raw? ==> r.value.loader == Registry[name]
    ensures r.Success? && r.value.Lazy? ==>
      r.value.component == AsyncComponent(Registry[name], None, None, ComplexDelay, ComplexTimeout)
  {
    if name !in Registry then
      Failure(NotFoundMessage(name))
    else if name in ComplexComponents then
      Success(Lazy(CreateLazyComponent(Registry[name], LazyOptions(None, None, Some(ComplexDelay), Some(ComplexTimeout)))))
    else
      Success(Raw(Registry[name]))
  }

  /** The registry holds exactly the eight UI components, and both complex
      names are among them. */
  lemma RegistryContents()
    ensures Registry.Keys == {"Button", "Card", "CardHeader", "CardContent", "CardFooter", "Input", "Dialog", "Select"}
    ensures forall n :: n in ComplexComponents ==> n in Registry
  {
  }

  /** The not-found message names the component it was raised for: two
      different names never produce the same message. */
  lemma NotFoundMessageInjective(a: string, b: string)
    ensures NotFoundMessage(a) == NotFoundMessage(b) ==> a == b
  {
    if NotFoundMessage(a) == NotFoundMessage(b) {
      var pre := "Component \"";
      var post := "\" not found in registry";
      assert |a| == |b|;
      assert a == NotFoundMessage(a)[|pre|..|pre| + |a|];
      assert b == NotFoundMessage(b)[|pre|..|pre| + |b|];
    }
  }

  /** The example from the component tests: an unknown name fails with the
      not-found message naming it. */
  lemma UnknownComponentFails()
    ensures LoadComponent("NonExistentComponent") == Failure(NotFoundMessage("NonExistentComponent"))
  {
    RegistryContents();
    assert |"NonExistentComponent"| == 20;
  }

  /** An explicit zero delay or timeout survives the defaulting. */
  lemma ExplicitZeroKept(loader: Loader)
    ensures CreateLazyComponent(loader, LazyOptions(None, None, Some(0), Some(0))).delay == 0
    ensures CreateLazyComponent(loader, LazyOptions(None, None, Some(0), Some(0))).timeout == 0
  {
  }

  /** The variants to include: the caller's list when non-empty, otherwise
      all six. */
  function GetButtonVariants(usedVariants: seq<string>): (r: seq<string>)
    ensures |usedVariants| > 0 ==> r == usedVariants
    ensures |usedVariants| == 0 ==> r == AllVariants
    ensures |r| > 0
  {
    if |usedVariants| > 0 then usedVariants else AllVariants
  }

  /** The sizes to include: the caller's list when non-empty, otherwise all
      four. */
  function GetButtonSizes(usedSizes: seq<string>): (r: seq<string>)
    ensures |usedSizes| > 0 ==> r == usedSizes
    ensures |usedSizes| == 0 ==> r == AllSizes
    ensures |r| > 0
  {
    if |usedSizes| > 0 then usedSizes else AllSizes
  }

  /** Applying the defaulting twice changes nothing. */
  lemma ButtonDefaultsIdempotent(used: seq<string>)
    ensures GetButtonVariants(GetButtonVariants(used)) == GetButtonVariants(used)
    ensures GetButtonSizes(GetButtonSizes(used)) == GetButtonSizes(used)
  {
  }

  /** The class list is the caller's variant list, whatever the component. */
  function GetOptimizedClasses(component: string, usedVariants: seq<string>): (r: seq<string>)
    ensures r == usedVariants
  {
    usedVariants
  }
}
