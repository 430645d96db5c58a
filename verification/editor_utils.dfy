/** The editor's document records and its component registry: blocks placed on
    the canvas, the document that holds them, the components a palette offers,
    and the configuration that registers components by key
    (src/packages/visual-editor.utils.ts). */
module EditorUtils {
  import opened Options

  /** A block placed on the canvas. `top` and `left` are opaque positions
      here: this part of the editor only copies them. */
  datatype Block = Block(
    componentKey: string,
    top: int,
    left: int,
    adjustPosition: bool,  // the block still has to be centred on its drop point
    focus: bool            // the block is part of the current selection
  )

  datatype Container = Container(width: int, height: int)

  /** The edited document. Its block list may be absent; every reader falls
      back to the empty list. */
  datatype ModelValue = ModelValue(container: Container, blocks: Option<seq<Block>>)

  /** Stands for a component's `preview` or `render` function, which produces
      markup and is never interpreted by this part of the editor. */
  datatype View = View(name: string)

  // `caption` is the component's `label`, a reserved word in Dafny.
  datatype Component = Component(key: string, caption: string, preview: View, render: View)

  /** A new block for `component` dropped at (`top`, `left`): not selected,
      and still to be centred on the drop point. */
  function NewBlock(component: Component, top: int, left: int): (b: Block)
    ensures b.adjustPosition && !b.focus
    ensures b.top == top && b.left == left
    ensures b.componentKey == component.key
  {
    Block(component.key, top, left, true, false)
  }

  /** Two new blocks are equal exactly when they were made for components
      with the same key at the same position: the caption and the views of the
      component leave no trace in the block. */
  lemma NewBlockDeterminedByKeyAndPosition(c1: Component, t1: int, l1: int, c2: Component, t2: int, l2: int)
    ensures NewBlock(c1, t1, l1) == NewBlock(c2, t2, l2) <==> c1.key == c2.key && t1 == t2 && l1 == l2
  {
  }

  /** The palette configuration: every registered component in registration
      order, and the latest component registered under each key. */
  datatype Config = Config(componentList: seq<Component>, componentMap: map<string, Component>)

  function NewConfig(): (cfg: Config)
    ensures cfg.componentList == []
    ensures cfg.componentMap == map[]
  {
    Config([], map[])
  }

  /** Registers `component` under `key`. The stored component carries `key`
      whatever key it came with; the list keeps every registration, while the
      map keeps only the latest one per key. */
  function RegisterComponent(cfg: Config, key: string, component: Component): (r: Config)
    ensures |r.componentList| == |cfg.componentList| + 1
    ensures r.componentList[..|cfg.componentList|] == cfg.componentList
    ensures r.componentList[|cfg.componentList|] == component.(key := key)
    ensures key in r.componentMap && r.componentMap[key] == component.(key := key)
    ensures r.componentMap.Keys == cfg.componentMap.Keys + {key}
    ensures forall k :: k in cfg.componentMap && k != key ==> r.componentMap[k] == cfg.componentMap[k]
  {
    var stored := component.(key := key);
    Config(cfg.componentList + [stored], cfg.componentMap[key := stored])
  }

  /** The component registered last under `key` in `list`, if any. */
  function LastWithKey(list: seq<Component>, key: string): Option<Component>
  {
    if |list| == 0 then None
    else if list[|list| - 1].key == key then Some(list[|list| - 1])
    else LastWithKey(list[..|list| - 1], key)
  }

  function Lookup(m: map<string, Component>, key: string): Option<Component>
  {
    if key in m then Some(m[key]) else None
  }

  /** The map holds, for every key, exactly the latest list entry with that key. */
  ghost predicate Consistent(cfg: Config)
  {
    forall key :: Lookup(cfg.componentMap, key) == LastWithKey(cfg.componentList, key)
  }

  lemma NewConfigConsistent()
    ensures Consistent(NewConfig())
  {
  }

  /** Registration keeps the map and the list in step. */
  lemma RegisterComponentPreservesConsistent(cfg: Config, key: string, component: Component)
    requires Consistent(cfg)
    ensures Consistent(RegisterComponent(cfg, key, component))
  {
  }

  /** Registers each `(key, component)` pair of `registrations` in order. */
  function RegisterComponents(cfg: Config, registrations: seq<(string, Component)>): (r: Config)
    requires Consistent(cfg)
    ensures Consistent(r)
    ensures |r.componentList| == |cfg.componentList| + |registrations|
    ensures r.componentList[..|cfg.componentList|] == cfg.componentList
    decreases |registrations|
  {
    if |registrations| == 0 then cfg
    else
      var (key, component) := registrations[0];
      RegisterComponentPreservesConsistent(cfg, key, component);
      RegisterComponents(RegisterComponent(cfg, key, component), registrations[1..])
  }

  /** The list keeps every registration, duplicates included: registration
      `i` lands `i` places after the components already listed, carrying the
      key it was registered under. */
  lemma {:induction false} RegisterComponentsKeepsEveryEntry(cfg: Config, registrations: seq<(string, Component)>, i: int)
    requires Consistent(cfg)
    requires 0 <= i < |registrations|
    ensures RegisterComponents(cfg, registrations).componentList[|cfg.componentList| + i]
         == registrations[i].1.(key := registrations[i].0)
    decreases |registrations|
  {
    var (key, component) := registrations[0];
    RegisterComponentPreservesConsistent(cfg, key, component);
    var next := RegisterComponent(cfg, key, component);
    if i == 0 {
      var r := RegisterComponents(next, registrations[1..]);
      assert r.componentList[..|next.componentList|] == next.componentList;
      assert r.componentList[|cfg.componentList|] == next.componentList[|cfg.componentList|];
    } else {
      RegisterComponentsKeepsEveryEntry(next, registrations[1..], i - 1);
    }
  }

  /** When the same key is registered twice, both components stay in the list
      but the map answers with the later one. */
  lemma DuplicateKeyKeepsBothButMapsLatest(cfg: Config, key: string, first: Component, second: Component)
    requires Consistent(cfg)
    ensures var r := RegisterComponent(RegisterComponent(cfg, key, first), key, second);
      && r.componentList[|cfg.componentList|] == first.(key := key)
      && r.componentList[|cfg.componentList| + 1] == second.(key := key)
      && r.componentMap[key] == second.(key := key)
      && Consistent(r)
  {
    RegisterComponentPreservesConsistent(cfg, key, first);
    RegisterComponentPreservesConsistent(RegisterComponent(cfg, key, first), key, second);
  }

  /** The component the latest registration of `key` in `registrations`
      stores, if `key` is registered at all. */
  function LatestRegistration(registrations: seq<(string, Component)>, key: string): Option<Component>
    decreases |registrations|
  {
    if |registrations| == 0 then None
    else match LatestRegistration(registrations[1..], key)
      case Some(c) => Some(c)
      case None => if registrations[0].0 == key then Some(registrations[0].1.(key := key)) else None
  }

  /** After a run of registrations the map answers each key with its latest
      registration, and keys not registered in the run keep their entry. */
  lemma {:induction false} RegisterComponentsMapsLatest(cfg: Config, registrations: seq<(string, Component)>, key: string)
    requires Consistent(cfg)
    ensures Lookup(RegisterComponents(cfg, registrations).componentMap, key)
         == match LatestRegistration(registrations, key)
            case Some(c) => Some(c)
            case None => Lookup(cfg.componentMap, key)
    decreases |registrations|
  {
    if |registrations| > 0 {
      var (k, component) := registrations[0];
      RegisterComponentPreservesConsistent(cfg, k, component);
      RegisterComponentsMapsLatest(RegisterComponent(cfg, k, component), registrations[1..], key);
    }
  }
}
