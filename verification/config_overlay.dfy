/** `ProjectManager._update_values` (lib/config/project_manager.py, lines
    169-178): the loaded YAML template is overwritten, key by key, with the
    values of the live configuration. A nested section recurses into the
    configuration's section of the same name, and a missing one aborts the
    overlay with the `KeyError` the lookup raises. A leaf takes the
    configuration's value when there is one and otherwise keeps its own,
    because that lookup's error is caught. */
module ConfigOverlay {
  import opened Wrappers

  /** A YAML mapping or configuration node: a section of keyed children in
      insertion order, or a leaf value. */
  datatype Node = Section(entries: seq<(string, Node)>) | Leaf(value: string)

  /** The first child under `key`. */
  function Find(es: seq<(string, Node)>, key: string): (r: Option<Node>)
    ensures r.None? <==> forall i :: 0 <= i < |es| ==> es[i].0 != key
    ensures r.Some? ==> exists i :: 0 <= i < |es| && es[i] == (key, r.value)
  {
    if |es| == 0 then None
    else if es[0].0 == key then Some(es[0].1)
    else Find(es[1..], key)
  }

  /** `cfg[key]`: a section's child, or nothing when the key is absent or
      `cfg` is a leaf (indexing a scalar raises too). */
  function Lookup(cfg: Node, key: string): Option<Node> {
    if cfg.Leaf? then None else Find(cfg.entries, key)
  }

  /** No two children of a section share a key, at any depth, as in a Python
      dictionary. */
  predicate WellFormed(n: Node)
    decreases n
  {
    n.Leaf? ||
    ((forall i, j :: 0 <= i < j < |n.entries| ==> n.entries[i].0 != n.entries[j].0) &&
     (forall i :: 0 <= i < |n.entries| ==> WellFormed(n.entries[i].1)))
  }

  /** In a well-formed section, looking up a child's key finds that child. */
  lemma {:induction false} FindUnique(es: seq<(string, Node)>, i: nat)
    requires i < |es|
    requires forall a, b :: 0 <= a < b < |es| ==> es[a].0 != es[b].0
    ensures Find(es, es[i].0) == Some(es[i].1)
  {
    if i > 0 {
      assert es[0].0 != es[i].0;
      assert es[1..][i - 1] == es[i];
      FindUnique(es[1..], i - 1);
    }
  }

  /** Whatever a well-formed node's lookup returns is well-formed. */
  lemma LookupWellFormed(cfg: Node, key: string)
    requires WellFormed(cfg) && Lookup(cfg, key).Some?
    ensures WellFormed(Lookup(cfg, key).value)
  {
    var i :| 0 <= i < |cfg.entries| && cfg.entries[i] == (key, Lookup(cfg, key).value);
  }

  /** The key the overlay stopped at. */
  datatype OverlayError = MissingSection(key: string)

  /** One `for k, v` step: a section recurses into `cfg[key]`, a leaf takes
      `cfg[key]` or keeps `v`. */
  function UpdateEntry(key: string, v: Node, cfg: Node): Result<Node, OverlayError>
    decreases v, 1
  {
    if v.Section? then
      match Lookup(cfg, key)
      case None => Failure(MissingSection(key))
      case Some(sub) =>
        match UpdateFrom(v, 0, sub)
        case Failure(e) => Failure(e)
        case Success(es) => Success(Section(es))
    else
      match Lookup(cfg, key)
      case None => Success(v)
      case Some(c) => Success(c)
  }

  /** The children of section `d` from position `i` on, overlaid in order;
      the first failure ends the loop. */
  function UpdateFrom(d: Node, i: nat, cfg: Node): Result<seq<(string, Node)>, OverlayError>
    requires d.Section? && i <= |d.entries|
    decreases d, 0, |d.entries| - i
  {
    if i == |d.entries| then Success([])
    else
      match UpdateEntry(d.entries[i].0, d.entries[i].1, cfg)
      case Failure(e) => Failure(e)
      case Success(n) =>
        match UpdateFrom(d, i + 1, cfg)
        case Failure(e) => Failure(e)
        case Success(rest) => Success([(d.entries[i].0, n)] + rest)
  }

  /** `_update_values(config_dict, cfg)`, returning the new children of
      `config_dict`. */
  function UpdateValues(d: Node, cfg: Node): Result<seq<(string, Node)>, OverlayError>
    requires d.Section?
  {
    UpdateFrom(d, 0, cfg)
  }

  /** Every section of `d`, at any depth, has a section of the same name in
      `cfg`: the condition under which the overlay does not abort. */
  predicate EntryCovered(key: string, v: Node, cfg: Node)
    decreases v, 1
  {
    v.Leaf? || (Lookup(cfg, key).Some? && Covered(v, Lookup(cfg, key).value))
  }

  predicate Covered(d: Node, cfg: Node)
    decreases d, 0
  {
    d.Leaf? || forall i :: 0 <= i < |d.entries| ==> EntryCovered(d.entries[i].0, d.entries[i].1, cfg)
  }

  /** What the overlay is meant to produce, stated per child: a leaf becomes
      the configuration's value under its key, or stays when there is none; a
      section becomes the overlay of itself with the configuration's section. */
  predicate EntryOverlaid(key: string, v: Node, cfg: Node, n: Node)
    decreases v, 1
  {
    if v.Leaf? then n == (if Lookup(cfg, key).Some? then Lookup(cfg, key).value else v)
    else Lookup(cfg, key).Some? && n.Section? && Overlaid(v, Lookup(cfg, key).value, n.entries)
  }

  predicate Overlaid(d: Node, cfg: Node, r: seq<(string, Node)>)
    decreases d, 0
  {
    d.Section? && |r| == |d.entries| &&
    forall i :: 0 <= i < |r| ==> r[i].0 == d.entries[i].0 && EntryOverlaid(d.entries[i].0, d.entries[i].1, cfg, r[i].1)
  }

  /** Each step succeeds exactly when its subtree is covered, and then
      produces the intended child. */
  lemma {:induction false} UpdateEntrySound(key: string, v: Node, cfg: Node)
    ensures UpdateEntry(key, v, cfg).Success? <==> EntryCovered(key, v, cfg)
    ensures UpdateEntry(key, v, cfg).Success? ==> EntryOverlaid(key, v, cfg, UpdateEntry(key, v, cfg).value)
    decreases v, 1
  {
    if v.Section? && Lookup(cfg, key).Some? {
      UpdateFromSound(v, 0, Lookup(cfg, key).value);
    }
  }

  lemma {:induction false} UpdateFromSound(d: Node, i: nat, cfg: Node)
    requires d.Section? && i <= |d.entries|
    ensures UpdateFrom(d, i, cfg).Success? <==>
            forall j :: i <= j < |d.entries| ==> EntryCovered(d.entries[j].0, d.entries[j].1, cfg)
    ensures var r := UpdateFrom(d, i, cfg);
      r.Success? ==> (|r.value| == |d.entries| - i &&
        forall j :: 0 <= j < |r.value| ==>
          r.value[j].0 == d.entries[i + j].0 &&
          EntryOverlaid(d.entries[i + j].0, d.entries[i + j].1, cfg, r.value[j].1))
    decreases d, 0, |d.entries| - i
  {
    if i < |d.entries| {
      UpdateEntrySound(d.entries[i].0, d.entries[i].1, cfg);
      UpdateFromSound(d, i + 1, cfg);
      var r := UpdateFrom(d, i, cfg);
      if r.Success? {
        var rest := UpdateFrom(d, i + 1, cfg).value;
        forall j | 0 <= j < |r.value|
          ensures r.value[j].0 == d.entries[i + j].0 &&
                  EntryOverlaid(d.entries[i + j].0, d.entries[i + j].1, cfg, r.value[j].1)
        {
          if j > 0 {
            assert r.value[j] == rest[j - 1];
          }
        }
      }
    }
  }

  /** The overlay succeeds exactly when `cfg` covers every section of
      `config_dict`, and then yields the intended children. */
  lemma UpdateValuesSound(d: Node, cfg: Node)
    requires d.Section?
    ensures UpdateValues(d, cfg).Success? <==> Covered(d, cfg)
    ensures UpdateValues(d, cfg).Success? ==> Overlaid(d, cfg, UpdateValues(d, cfg).value)
  {
    UpdateFromSound(d, 0, cfg);
  }

  /** A missing section aborts the overlay: if some section of `config_dict`
      has no counterpart in `cfg`, the overlay fails, whatever the other keys. */
  lemma MissingSectionAborts(d: Node, cfg: Node, i: nat)
    requires d.Section? && i < |d.entries| && d.entries[i].1.Section?
    requires Lookup(cfg, d.entries[i].0).None?
    ensures UpdateValues(d, cfg).Failure?
  {
    UpdateValuesSound(d, cfg);
  }

  /** The overlay neither adds nor removes keys: the key sequence is kept at
      every depth, and every section stays a section. */
  predicate ShapeKept(d: Node, r: seq<(string, Node)>)
    decreases d
  {
    d.Section? && |r| == |d.entries| &&
    forall i :: 0 <= i < |r| ==>
      r[i].0 == d.entries[i].0 &&
      (d.entries[i].1.Section? ==> r[i].1.Section? && ShapeKept(d.entries[i].1, r[i].1.entries))
  }

  lemma {:induction false} OverlaidKeepsShape(d: Node, cfg: Node, r: seq<(string, Node)>)
    requires Overlaid(d, cfg, r)
    ensures ShapeKept(d, r)
    decreases d
  {
    forall i | 0 <= i < |r| && d.entries[i].1.Section?
      ensures r[i].1.Section? && ShapeKept(d.entries[i].1, r[i].1.entries)
    {
      OverlaidKeepsShape(d.entries[i].1, Lookup(cfg, d.entries[i].0).value, r[i].1.entries);
    }
  }

  lemma UpdateKeepsShape(d: Node, cfg: Node)
    requires d.Section? && UpdateValues(d, cfg).Success?
    ensures ShapeKept(d, UpdateValues(d, cfg).value)
  {
    UpdateValuesSound(d, cfg);
    OverlaidKeepsShape(d, cfg, UpdateValues(d, cfg).value);
  }

  /** Overlaying a well-formed section with itself changes nothing. */
  lemma {:induction false} SelfUpdate(c: Node)
    requires c.Section? && WellFormed(c)
    ensures UpdateValues(c, c) == Success(c.entries)
    decreases c, 1
  {
    SelfUpdateFrom(c, 0);
  }

  lemma {:induction false} SelfUpdateFrom(c: Node, i: nat)
    requires c.Section? && WellFormed(c) && i <= |c.entries|
    ensures UpdateFrom(c, i, c) == Success(c.entries[i..])
    decreases c, 0, |c.entries| - i
  {
    if i < |c.entries| {
      var (k, v) := c.entries[i];
      FindUnique(c.entries, i);
      assert Lookup(c, k) == Some(v);
      if v.Section? {
        assert WellFormed(c.entries[i].1);
        SelfUpdate(v);
        assert UpdateFrom(v, 0, v) == Success(v.entries);
      }
      assert UpdateEntry(k, v, c) == Success(v);
      SelfUpdateFrom(c, i + 1);
      assert c.entries[i..] == [(k, v)] + c.entries[i + 1..];
      assert UpdateFrom(c, i, c) == Success([(k, v)] + c.entries[i + 1..]);
    } else {
      assert c.entries[i..] == [];
    }
  }

  /** Overlaying twice with the same well-formed configuration is the same as
      overlaying once. */
  lemma {:induction false} UpdateIdempotent(d: Node, cfg: Node)
    requires d.Section? && WellFormed(cfg) && UpdateValues(d, cfg).Success?
    ensures UpdateValues(Section(UpdateValues(d, cfg).value), cfg) == UpdateValues(d, cfg)
    decreases d, 2
  {
    UpdateIdempotentFrom(d, 0, cfg);
  }

  lemma {:induction false} UpdateIdempotentFrom(d: Node, i: nat, cfg: Node)
    requires d.Section? && i <= |d.entries| && WellFormed(cfg) && UpdateFrom(d, i, cfg).Success?
    ensures UpdateFrom(Section(UpdateFrom(d, i, cfg).value), 0, cfg) == UpdateFrom(d, i, cfg)
    decreases d, 1, |d.entries| - i
  {
    var r := UpdateFrom(d, i, cfg).value;
    if i < |d.entries| {
      var (k, v) := d.entries[i];
      var n := UpdateEntry(k, v, cfg).value;
      var rest := UpdateFrom(d, i + 1, cfg).value;
      assert r == [(k, n)] + rest;
      UpdateEntryIdempotent(k, v, cfg);
      UpdateIdempotentFrom(d, i + 1, cfg);
      ShiftFrom(r, cfg);
    }
  }

  /** Overlaying a section from position 1 is overlaying its tail. */
  lemma ShiftFrom(r: seq<(string, Node)>, cfg: Node)
    requires |r| > 0
    ensures UpdateFrom(Section(r), 0, cfg) ==
            match UpdateEntry(r[0].0, r[0].1, cfg)
            case Failure(e) => Failure(e)
            case Success(n) =>
              match UpdateFrom(Section(r[1..]), 0, cfg)
              case Failure(e) => Failure(e)
              case Success(rest) => Success([(r[0].0, n)] + rest)
  {
    ShiftFromAt(r, 1, cfg);
  }

  /** Overlaying `Section(r)` from position `i` depends only on `r[i..]`. */
  lemma {:induction false} ShiftFromAt(r: seq<(string, Node)>, i: nat, cfg: Node)
    requires i <= |r|
    ensures UpdateFrom(Section(r), i, cfg) == UpdateFrom(Section(r[i..]), 0, cfg)
    decreases |r| - i
  {
    if i < |r| {
      ShiftFromAt(r, i + 1, cfg);
      ShiftFromAt(r[i..], 1, cfg);
      assert r[i..][1..] == r[i + 1..];
    }
  }

  /** One step applied to its own output gives that output back. */
  lemma {:induction false} UpdateEntryIdempotent(key: string, v: Node, cfg: Node)
    requires WellFormed(cfg) && UpdateEntry(key, v, cfg).Success?
    ensures UpdateEntry(key, UpdateEntry(key, v, cfg).value, cfg) == UpdateEntry(key, v, cfg)
    decreases v, 3
  {
    var n := UpdateEntry(key, v, cfg).value;
    if v.Section? {
      var sub := Lookup(cfg, key).value;
      LookupWellFormed(cfg, key);
      UpdateIdempotent(v, sub);
    } else if Lookup(cfg, key).Some? {
      var c := Lookup(cfg, key).value;
      assert n == c;
      LookupWellFormed(cfg, key);
      if c.Section? {
        SelfUpdate(c);
      }
    }
  }
}
