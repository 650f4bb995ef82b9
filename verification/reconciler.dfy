/** `refresh_cards` (src/mainwindow/imp.rs) as a pure state transition: the
    window's provider, its stack of GPU pages, its list of GPU pages and its
    list of GPU names, rebuilt from the provider setting and from what the
    provider enumerates. */
module Reconciler {
  import opened Common
  import opened Catalog

  /** One GPU page: the uuid it is registered under in the stack, the title
      it shows and the provider its properties are read through. */
  datatype Page = Page(uuid: string, title: string, provider: Provider)

  /** The window state `refresh_cards` reads and writes. `stack` is the
      pages handed to the page stack with `add_titled` and not yet removed,
      in insertion order; `pages` is the `gpu_pages` list and `names` the
      `gpu_names` list of stack names to clear on the next refresh. */
  datatype State = State(provider: Option<Provider>, stack: seq<Page>, pages: seq<Page>, names: seq<string>)

  /** A freshly constructed window. */
  const Init := State(None, [], [], [])

  /** The result of one refresh, with whether the provider was rebuilt. */
  datatype Step = Step(state: State, rebuilt: bool)

  /** The first stack page registered under `name` (`child_by_name`). */
  function FirstNamed(stack: seq<Page>, name: string): (r: Option<nat>)
    ensures r.Some? ==> r.value < |stack| && stack[r.value].uuid == name
    ensures r.Some? ==> forall j :: 0 <= j < r.value ==> stack[j].uuid != name
    ensures r.None? ==> forall j :: 0 <= j < |stack| ==> stack[j].uuid != name
  {
    if stack == [] then None
    else if stack[0].uuid == name then Some(0)
    else match FirstNamed(stack[1..], name)
      case None => None
      case Some(i) => Some(i + 1)
  }

  /** Removing the page registered under `name`, if any: the first such page
      goes, a missing page is skipped. */
  function RemoveNamed(stack: seq<Page>, name: string): (r: seq<Page>)
    ensures FirstNamed(stack, name).None? ==> r == stack
    ensures FirstNamed(stack, name).Some? ==>
              var i := FirstNamed(stack, name).value; r == stack[..i] + stack[i + 1..]
  {
    if stack == [] then []
    else if stack[0].uuid == name then stack[1..]
    else
      var rest := RemoveNamed(stack[1..], name);
      assert FirstNamed(stack[1..], name).Some? ==>
               var i := FirstNamed(stack[1..], name).value;
               stack[..i + 1] + stack[i + 2..] == [stack[0]] + (stack[1..][..i] + stack[1..][i + 1..]);
      [stack[0]] + rest
  }

  /** The clearing loop: every stored name, in order, removes its page. */
  function RemoveAll(stack: seq<Page>, names: seq<string>): (r: seq<Page>)
    ensures |r| <= |stack|
    ensures names == [] ==> r == stack
    decreases |names|
  {
    if names == [] then stack
    else RemoveAll(RemoveNamed(stack, names[0]), names[1..])
  }

  /** The pages created for an enumeration: one per uuid, in order, titled
      with the GPU's name, or with the uuid when the name cannot be read. */
  function BuildPages(p: Provider, uuids: seq<string>,
                      nameOf: (Provider, string) -> Result<string>): (r: seq<Page>)
    ensures |r| == |uuids|
    ensures forall i :: 0 <= i < |uuids| ==>
              && r[i].uuid == uuids[i]
              && r[i].provider == p
              && r[i].title == (match nameOf(p, uuids[i]) case Ok(n) => n case Err(_) => uuids[i])
  {
    if uuids == [] then []
    else
      var title := match nameOf(p, uuids[0]) case Ok(n) => n case Err(_) => uuids[0];
      [Page(uuids[0], title, p)] + BuildPages(p, uuids[1..], nameOf)
  }

  /** The provider a refresh works with: the existing one when its type is
      the setting, otherwise a new one built from the setting. */
  function Choose(current: Option<Provider>, setting: int): (r: (Provider, bool))
    ensures r.1 <==> current.None? || current.value.tag != setting
    ensures r.1 ==> r.0 == CreateProvider(setting)
    ensures !r.1 ==> current == Some(r.0) && r.0.tag == setting
  {
    match current
    case None => (CreateProvider(setting), true)
    case Some(e) => if e.tag != setting then (CreateProvider(setting), true) else (e, false)
  }

  /** `refresh_cards`: clear the stored names from the stack (draining the
      list), pick or rebuild the provider, then, if its GPUs can be listed,
      add one page per GPU to both the stack and the page list. A failed
      enumeration adds nothing. */
  function Refresh(s: State, setting: int,
                   enumerate: Provider -> Result<seq<string>>,
                   nameOf: (Provider, string) -> Result<string>): (r: Step)
    ensures r.state.names == []
    ensures r.rebuilt <==> s.provider.None? || s.provider.value.tag != setting
    ensures r.rebuilt ==> r.state.provider == Some(CreateProvider(setting))
    ensures !r.rebuilt ==> r.state.provider == s.provider
    ensures var p := r.state.provider.value;
            var added := match enumerate(p) case Ok(u) => |u| case Err(_) => 0;
            && r.state.provider.Some?
            && |r.state.pages| == |s.pages| + added
            && r.state.pages[..|s.pages|] == s.pages
            && r.state.stack == RemoveAll(s.stack, s.names) + r.state.pages[|s.pages|..]
            && (forall i :: |s.pages| <= i < |r.state.pages| ==> r.state.pages[i].provider == p)
  {
    var chosen := Choose(s.provider, setting);
    var p := chosen.0;
    var added := match enumerate(p)
      case Ok(uuids) => BuildPages(p, uuids, nameOf)
      case Err(_) => [];
    var pages := s.pages + added;
    assert pages[..|s.pages|] == s.pages;
    assert pages[|s.pages|..] == added;
    Step(State(Some(p), RemoveAll(s.stack, s.names) + added, pages, []), chosen.1)
  }

  /** One refresh as the window sees it: the provider setting read at that
      moment, and what the provider then enumerates and names. */
  datatype Tick = Tick(setting: int,
                       enumerate: Provider -> Result<seq<string>>,
                       nameOf: (Provider, string) -> Result<string>)

  /** Successive refreshes, each with its own setting and its own view of
      the GPUs. */
  function Run(s: State, ticks: seq<Tick>): (r: State)
    decreases |ticks|
  {
    if ticks == [] then s
    else Run(Refresh(s, ticks[0].setting, ticks[0].enumerate, ticks[0].nameOf).state, ticks[1..])
  }

  /** A repeated refresh with an in-range setting reuses the provider the
      first one built. */
  lemma InRangeSettingIsReused(s: State, setting: int,
                               enumerate: Provider -> Result<seq<string>>,
                               nameOf: (Provider, string) -> Result<string>)
    requires 0 <= setting <= 3
    ensures var first := Refresh(s, setting, enumerate, nameOf).state;
            var second := Refresh(first, setting, enumerate, nameOf);
            && !second.rebuilt && second.state.provider == first.provider
  {
  }

  /** A setting outside 0..3 builds the fallback provider, tagged 0, so every
      refresh with that setting rebuilds the provider again. (Every provider
      comes from `create_provider`, so its tag is in 0..3.) */
  lemma OutOfRangeSettingAlwaysRebuilds(s: State, setting: int,
                                        enumerate: Provider -> Result<seq<string>>,
                                        nameOf: (Provider, string) -> Result<string>)
    requires !(0 <= setting <= 3)
    requires s.provider.Some? ==> 0 <= s.provider.value.tag <= 3
    ensures var first := Refresh(s, setting, enumerate, nameOf).state;
            var second := Refresh(first, setting, enumerate, nameOf);
            && second.rebuilt && second.state.provider == Some(CreateProvider(setting))
            && second.state.provider.value.tag == 0
  {
  }

  /** Nothing ever records a stack name, so from a fresh window the name
      list stays empty, the pages handed to the stack are exactly the page
      list, and every run only appends pages, whatever the settings and
      whatever the GPUs enumerated at each refresh: earlier pages are never
      removed. */
  lemma {:induction false} RunOnlyAppends(s: State, ticks: seq<Tick>)
    requires s.names == [] && s.stack == s.pages
    ensures var r := Run(s, ticks);
            && r.names == []
            && r.stack == r.pages
            && |s.pages| <= |r.pages| && r.pages[..|s.pages|] == s.pages
    decreases |ticks|
  {
    if ticks != [] {
      var t := ticks[0];
      var next := Refresh(s, t.setting, t.enumerate, t.nameOf).state;
      assert next.stack == next.pages by {
        assert next.stack == s.pages + next.pages[|s.pages|..];
        assert next.pages == next.pages[..|s.pages|] + next.pages[|s.pages|..];
      }
      RunOnlyAppends(next, ticks[1..]);
      var r := Run(next, ticks[1..]);
      assert r.pages[..|s.pages|] == r.pages[..|next.pages|][..|s.pages|];
    }
  }

  /** A refresh whose enumeration succeeds appends one page per GPU to the
      page list; with no names stored, it hands the same pages to the
      stack. */
  lemma RefreshAppends(s: State, setting: int, uuids: seq<string>,
                       enumerate: Provider -> Result<seq<string>>,
                       nameOf: (Provider, string) -> Result<string>)
    requires enumerate(Choose(s.provider, setting).0) == Ok(uuids)
    ensures var r := Refresh(s, setting, enumerate, nameOf).state;
            && r.pages == s.pages + BuildPages(r.provider.value, uuids, nameOf)
            && (s.names == [] ==> r.stack == s.stack + BuildPages(r.provider.value, uuids, nameOf))
  {
  }

  /** From a fresh window, two refreshes over the same GPUs list every GPU
      twice in `gpu_pages`: the second refresh pushes a second copy (one
      page per uuid, in order) instead of replacing the first, and hands
      that copy to the stack as well. */
  lemma RefreshTwiceDuplicates(setting: int, uuids: seq<string>,
                               enumerate: Provider -> Result<seq<string>>,
                               nameOf: (Provider, string) -> Result<string>)
    requires forall p :: enumerate(p) == Ok(uuids)
    ensures var first := Refresh(Init, setting, enumerate, nameOf).state;
            var second := Refresh(first, setting, enumerate, nameOf).state;
            && second.pages == BuildPages(first.provider.value, uuids, nameOf)
                               + BuildPages(second.provider.value, uuids, nameOf)
            && |second.pages| == 2 * |uuids|
            && second.stack == second.pages
  {
    var first := Refresh(Init, setting, enumerate, nameOf).state;
    RefreshAppends(Init, setting, uuids, enumerate, nameOf);
    RefreshAppends(first, setting, uuids, enumerate, nameOf);
  }
}
