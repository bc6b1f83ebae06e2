/** Index preparation helpers (ppl/prepare_env/index_data.py): discovery of
    the date-typed fields of an index mapping, and the dotted-path read and
    write on nested documents that the time adjustment uses. */
module IndexData {
  import opened Wrappers
  import opened Json
  import opened Text

  // ---------------------------------------------------------------------------
  // Sizes, for termination
  // ---------------------------------------------------------------------------

  function Size(j: Json): (n: nat)
    decreases j
    ensures n >= 1
  {
    match j
    case JObj(es) => 1 + Sum(seq(|es|, k requires 0 <= k < |es| => Size(es[k].1)))
    case _ => 1
  }

  function Sum(xs: seq<nat>): nat
  {
    if xs == [] then 0 else xs[0] + Sum(xs[1..])
  }

  /** The total size of the values of an object's entries. */
  function SizeEntries(es: seq<(string, Json)>): nat
  {
    Size(JObj(es)) - 1
  }

  function Sizes(es: seq<(string, Json)>): (r: seq<nat>)
    ensures |r| == |es| && forall k :: 0 <= k < |es| ==> r[k] == Size(es[k].1)
    ensures SizeEntries(es) == Sum(r)
  {
    var r := seq(|es|, k requires 0 <= k < |es| => Size(es[k].1));
    assert Size(JObj(es)) == 1 + Sum(r);
    r
  }

  lemma SizesTail(es: seq<(string, Json)>)
    requires es != []
    ensures Sizes(es) == [Size(es[0].1)] + Sizes(es[1..])
  {
  }

  lemma {:induction false} SumAt(xs: seq<nat>, k: nat)
    requires k < |xs|
    ensures xs[k] <= Sum(xs)
  {
    if k > 0 {
      SumAt(xs[1..], k - 1);
    }
  }

  lemma EntrySmaller(es: seq<(string, Json)>, k: nat)
    requires k < |es|
    ensures Size(es[k].1) <= SizeEntries(es)
  {
    SumAt(Sizes(es), k);
  }

  lemma {:induction false} LookupSmaller(es: seq<(string, Json)>, key: string)
    requires Lookup(es, key).Some?
    ensures Size(Lookup(es, key).value) <= SizeEntries(es)
  {
    if es[0].0 == key {
      EntrySmaller(es, 0);
    } else {
      LookupSmaller(es[1..], key);
      TailSmaller(es);
    }
  }

  lemma TailSmaller(es: seq<(string, Json)>)
    requires es != []
    ensures SizeEntries(es[1..]) < SizeEntries(es)
  {
    SizesTail(es);
    var r := Sizes(es);
    assert r[1..] == Sizes(es[1..]);
  }

  // ---------------------------------------------------------------------------
  // get_date_fields
  // ---------------------------------------------------------------------------

  /** `d.get("type") in ["date", "date_nanos"]`. */
  predicate IsDateType(d: seq<(string, Json)>)
  {
    Lookup(d, "type") == Some(JStr("date")) || Lookup(d, "type") == Some(JStr("date_nanos"))
  }

  /** `f"{parent_key}.{field}" if parent_key else field`. */
  function FullKey(parent: string, field: string): string
  {
    if parent == [] then field else parent + "." + field
  }

  /** Prepending what has been collected already to a result. */
  function Prepend(acc: seq<string>, r: Result<seq<string>>): Result<seq<string>>
  {
    match r
    case Failure(e) => Failure(e)
    case Success(xs) => Success(acc + xs)
  }

  lemma PrependNil(r: Result<seq<string>>)
    ensures Prepend([], r) == r
  {
    if r.Success? {
      assert [] + r.value == r.value;
    }
  }

  lemma PrependAssoc(acc: seq<string>, xs: seq<string>, r: Result<seq<string>>)
    ensures Prepend(acc, Prepend(xs, r)) == Prepend(acc + xs, r)
  {
    if r.Success? {
      assert acc + (xs + r.value) == acc + xs + r.value;
    }
  }

  /** The date fields of a mapping object. `.items()` on a value that is not
      an object raises AttributeError, and so does `.get` on a field
      definition that is not one. */
  function DateFields(m: seq<(string, Json)>, parent: string): (r: Result<seq<string>>)
    decreases SizeEntries(m), 3
    ensures Lookup(m, "properties").None? ==> r == Success([])
  {
    match Lookup(m, "properties")
    case None => Success([])
    case Some(props) =>
      if !props.JObj? then Failure(AttributeError)
      else
        LookupSmaller(m, "properties");
        FieldsDates(props.entries, parent)
  }

  /** The fields of one `properties` object, in order. */
  function FieldsDates(fs: seq<(string, Json)>, parent: string): Result<seq<string>>
    decreases SizeEntries(fs), 2
  {
    if fs == [] then Success([])
    else
      EntrySmaller(fs, 0);
      TailSmaller(fs);
      match FieldDates(fs[0].0, fs[0].1, parent)
      case Failure(e) => Failure(e)
      case Success(xs) => Prepend(xs, FieldsDates(fs[1..], parent))
  }

  /** One field: itself when date-typed, then its nested properties, then
      its `fields` (multi-fields). */
  function FieldDates(field: string, p: Json, parent: string): Result<seq<string>>
    decreases Size(p), 1
  {
    if !p.JObj? then Failure(AttributeError)
    else
      var pe := p.entries;
      var full := FullKey(parent, field);
      var own := if IsDateType(pe) then [full] else [];
      var nested := if Lookup(pe, "properties").Some? then DateFields(pe, full) else Success([]);
      match nested
      case Failure(e) => Failure(e)
      case Success(ns) =>
        match Lookup(pe, "fields")
        case None => Success(own + ns)
        case Some(sub) =>
          if !sub.JObj? then Failure(AttributeError)
          else
            LookupSmaller(pe, "fields");
            Prepend(own + ns, SubFieldsDates(sub.entries, full))
  }

  /** The entries of a `fields` object: each is reported when date-typed and
      its own `properties` are searched; its `fields` are not. */
  function SubFieldsDates(subs: seq<(string, Json)>, full: string): Result<seq<string>>
    decreases SizeEntries(subs), 2
  {
    if subs == [] then Success([])
    else
      EntrySmaller(subs, 0);
      TailSmaller(subs);
      match SubFieldDates(subs[0].0, subs[0].1, full)
      case Failure(e) => Failure(e)
      case Success(xs) => Prepend(xs, SubFieldsDates(subs[1..], full))
  }

  function SubFieldDates(sub: string, sp: Json, full: string): Result<seq<string>>
    decreases Size(sp), 1
  {
    if !sp.JObj? then Failure(AttributeError)
    else
      var key := full + "." + sub;
      var own := if IsDateType(sp.entries) then [key] else [];
      if Lookup(sp.entries, "properties").Some? then Prepend(own, DateFields(sp.entries, key))
      else Success(own)
  }

  /** `get_date_fields`. */
  method GetDateFields(mapping: seq<(string, Json)>, parentKey: string) returns (r: Result<seq<string>>)
    decreases SizeEntries(mapping), 3
    ensures r == DateFields(mapping, parentKey)
  {
    var props := Lookup(mapping, "properties");
    if props.None? {
      return Success([]);
    }
    if !props.value.JObj? {
      return Failure(AttributeError);
    }
    LookupSmaller(mapping, "properties");
    var fs := props.value.entries;
    var dateFields: seq<string> := [];
    assert fs[0..] == fs;
    PrependNil(FieldsDates(fs, parentKey));
    for i := 0 to |fs|
      invariant Prepend(dateFields, FieldsDates(fs[i..], parentKey)) == FieldsDates(fs, parentKey)
    {
      assert fs[i..][0] == fs[i] && fs[i..][1..] == fs[i + 1..];
      EntrySmaller(fs, i);
      var one := FieldDateFields(fs[i].0, fs[i].1, parentKey);
      if one.Failure? {
        return Failure(one.error);
      }
      PrependAssoc(dateFields, one.value, FieldsDates(fs[i + 1..], parentKey));
      dateFields := dateFields + one.value;
    }
    assert fs[|fs|..] == [];
    assert dateFields + [] == dateFields;
    r := Success(dateFields);
  }

  /** The body of the loop of `get_date_fields` for one field. */
  method FieldDateFields(field: string, properties: Json, parentKey: string) returns (r: Result<seq<string>>)
    decreases Size(properties), 1
    ensures r == FieldDates(field, properties, parentKey)
  {
    if !properties.JObj? {
      return Failure(AttributeError);
    }
    var pe := properties.entries;
    var fullKey := FullKey(parentKey, field);
    var dateFields: seq<string> := [];
    if IsDateType(pe) {
      dateFields := dateFields + [fullKey];
    }
    ghost var own := dateFields;
    assert own == if IsDateType(pe) then [fullKey] else [];
    ghost var ns: seq<string> := [];
    if Lookup(pe, "properties").Some? {
      var nested := GetDateFields(pe, fullKey);
      if nested.Failure? {
        return Failure(nested.error);
      }
      ns := nested.value;
      dateFields := dateFields + nested.value;
    }
    assert dateFields == own + ns;
    var sub := Lookup(pe, "fields");
    if sub.None? {
      return Success(dateFields);
    }
    if !sub.value.JObj? {
      return Failure(AttributeError);
    }
    LookupSmaller(pe, "fields");
    var more := MultiFieldDateFields(sub.value.entries, fullKey);
    if more.Failure? {
      return Failure(more.error);
    }
    r := Success(dateFields + more.value);
  }

  /** The inner loop of `get_date_fields`, over the multi-fields of the field
      whose full key is `fullKey`. */
  method MultiFieldDateFields(subs: seq<(string, Json)>, fullKey: string) returns (r: Result<seq<string>>)
    decreases SizeEntries(subs), 2
    ensures r == SubFieldsDates(subs, fullKey)
  {
    var dateFields: seq<string> := [];
    assert subs[0..] == subs;
    PrependNil(SubFieldsDates(subs, fullKey));
    for i := 0 to |subs|
      invariant Prepend(dateFields, SubFieldsDates(subs[i..], fullKey)) == SubFieldsDates(subs, fullKey)
    {
      assert subs[i..][0] == subs[i] && subs[i..][1..] == subs[i + 1..];
      EntrySmaller(subs, i);
      var (subField, subProperties) := subs[i];
      if !subProperties.JObj? {
        return Failure(AttributeError);
      }
      var key := fullKey + "." + subField;
      ghost var start := dateFields;
      if IsDateType(subProperties.entries) {
        dateFields := dateFields + [key];
      }
      if Lookup(subProperties.entries, "properties").Some? {
        var nested := GetDateFields(subProperties.entries, key);
        if nested.Failure? {
          return Failure(nested.error);
        }
        dateFields := dateFields + nested.value;
      }
      assert dateFields == start + SubFieldDates(subField, subProperties, fullKey).value;
      PrependAssoc(start, SubFieldDates(subField, subProperties, fullKey).value, SubFieldsDates(subs[i + 1..], fullKey));
    }
    assert subs[|subs|..] == [];
    assert dateFields + [] == dateFields;
    r := Success(dateFields);
  }

  // The contributions of fields, nested properties and multi-fields.

  lemma {:induction false} FieldsDatesContains(fs: seq<(string, Json)>, parent: string, k: nat)
    requires k < |fs| && FieldsDates(fs, parent).Success?
    ensures FieldDates(fs[k].0, fs[k].1, parent).Success?
    ensures forall x :: x in FieldDates(fs[k].0, fs[k].1, parent).value ==> x in FieldsDates(fs, parent).value
  {
    if k > 0 {
      FieldsDatesContains(fs[1..], parent, k - 1);
    }
  }

  lemma {:induction false} SubFieldsDatesContains(subs: seq<(string, Json)>, full: string, k: nat)
    requires k < |subs| && SubFieldsDates(subs, full).Success?
    ensures SubFieldDates(subs[k].0, subs[k].1, full).Success?
    ensures forall x :: x in SubFieldDates(subs[k].0, subs[k].1, full).value ==> x in SubFieldsDates(subs, full).value
  {
    if k > 0 {
      SubFieldsDatesContains(subs[1..], full, k - 1);
    }
  }

  /** The `k`-th field of the mapping's `properties`, when it is an object. */
  predicate FieldAt(m: seq<(string, Json)>, k: nat)
  {
    && Lookup(m, "properties").Some? && Lookup(m, "properties").value.JObj?
    && k < |Lookup(m, "properties").value.entries|
    && Lookup(m, "properties").value.entries[k].1.JObj?
  }

  function FieldName(m: seq<(string, Json)>, k: nat): string
    requires FieldAt(m, k)
  {
    Lookup(m, "properties").value.entries[k].0
  }

  function FieldDef(m: seq<(string, Json)>, k: nat): seq<(string, Json)>
    requires FieldAt(m, k)
  {
    Lookup(m, "properties").value.entries[k].1.entries
  }

  /** A date-typed field contributes its dotted path, its nested properties'
      date fields are included under the extended prefix, and so are its
      date-typed multi-fields and their own nested date fields. */
  lemma DateFieldsComplete(m: seq<(string, Json)>, parent: string, k: nat)
    requires DateFields(m, parent).Success? && FieldAt(m, k)
    ensures var full := FullKey(parent, FieldName(m, k));
      && (IsDateType(FieldDef(m, k)) ==> full in DateFields(m, parent).value)
      && (Lookup(FieldDef(m, k), "properties").Some? ==>
            DateFields(FieldDef(m, k), full).Success?
            && forall x :: x in DateFields(FieldDef(m, k), full).value ==> x in DateFields(m, parent).value)
  {
    var fs := Lookup(m, "properties").value.entries;
    FieldsDatesContains(fs, parent, k);
  }

  lemma MultiFieldsComplete(m: seq<(string, Json)>, parent: string, k: nat, j: nat)
    requires DateFields(m, parent).Success? && FieldAt(m, k)
    requires Lookup(FieldDef(m, k), "fields").Some? && Lookup(FieldDef(m, k), "fields").value.JObj?
    requires j < |Lookup(FieldDef(m, k), "fields").value.entries|
    requires Lookup(FieldDef(m, k), "fields").value.entries[j].1.JObj?
    ensures
      var (sub, sp) := Lookup(FieldDef(m, k), "fields").value.entries[j];
      var key := FullKey(parent, FieldName(m, k)) + "." + sub;
      && (IsDateType(sp.entries) ==> key in DateFields(m, parent).value)
      && (Lookup(sp.entries, "properties").Some? ==>
            DateFields(sp.entries, key).Success?
            && forall x :: x in DateFields(sp.entries, key).value ==> x in DateFields(m, parent).value)
  {
    var fs := Lookup(m, "properties").value.entries;
    FieldsDatesContains(fs, parent, k);
    var full := FullKey(parent, FieldName(m, k));
    var subs := Lookup(FieldDef(m, k), "fields").value.entries;
    SubFieldsDatesContains(subs, full, j);
  }

  /** Under a non-empty prefix every reported path starts with the prefix
      and a dot. */
  predicate AllUnder(xs: seq<string>, parent: string)
  {
    forall x :: x in xs ==> |parent| + 1 <= |x| && x[..|parent| + 1] == parent + "."
  }

  lemma PrefixCompose(parent: string, mid: string, x: string)
    requires |parent + "." + mid| + 1 <= |x| && x[..|parent + "." + mid| + 1] == parent + "." + mid + "."
    ensures |parent| + 1 <= |x| && x[..|parent| + 1] == parent + "."
  {
    assert x[..|parent| + 1] == x[..|parent + "." + mid| + 1][..|parent| + 1];
  }

  lemma {:induction false} DateFieldsUnder(m: seq<(string, Json)>, parent: string)
    requires parent != [] && DateFields(m, parent).Success?
    ensures AllUnder(DateFields(m, parent).value, parent)
    decreases SizeEntries(m), 3
  {
    match Lookup(m, "properties")
    case None =>
    case Some(props) =>
      LookupSmaller(m, "properties");
      FieldsDatesUnder(props.entries, parent);
  }

  lemma {:induction false} FieldsDatesUnder(fs: seq<(string, Json)>, parent: string)
    requires parent != [] && FieldsDates(fs, parent).Success?
    ensures AllUnder(FieldsDates(fs, parent).value, parent)
    decreases SizeEntries(fs), 2
  {
    if fs != [] {
      EntrySmaller(fs, 0);
      TailSmaller(fs);
      FieldDatesUnder(fs[0].0, fs[0].1, parent);
      FieldsDatesUnder(fs[1..], parent);
    }
  }

  lemma AllUnderAppend(xs: seq<string>, ys: seq<string>, parent: string)
    requires AllUnder(xs, parent) && AllUnder(ys, parent)
    ensures AllUnder(xs + ys, parent)
  {
  }

  /** The nested date fields of a field whose key extends `parent` by `field`. */
  lemma NestedUnder(parent: string, field: string, xs: seq<string>)
    requires parent != [] && AllUnder(xs, parent + "." + field)
    ensures AllUnder(xs, parent)
  {
    forall x | x in xs ensures |parent| + 1 <= |x| && x[..|parent| + 1] == parent + "." {
      PrefixCompose(parent, field, x);
    }
  }

  lemma {:induction false} FieldDatesUnder(field: string, p: Json, parent: string)
    requires parent != [] && FieldDates(field, p, parent).Success?
    ensures AllUnder(FieldDates(field, p, parent).value, parent)
    decreases Size(p), 1
  {
    var pe := p.entries;
    var full := FullKey(parent, field);
    assert full == parent + "." + field;
    assert full[..|parent| + 1] == parent + ".";
    var own := if IsDateType(pe) then [full] else [];
    assert AllUnder(own, parent);
    var ns := if Lookup(pe, "properties").Some? then DateFields(pe, full).value else [];
    if Lookup(pe, "properties").Some? {
      DateFieldsUnder(pe, full);
      NestedUnder(parent, field, ns);
    }
    AllUnderAppend(own, ns, parent);
    match Lookup(pe, "fields")
    case None =>
      assert FieldDates(field, p, parent).value == own + ns;
    case Some(sub) =>
      LookupSmaller(pe, "fields");
      var ss := SubFieldsDates(sub.entries, full).value;
      SubFieldsDatesUnder(sub.entries, full);
      NestedUnder(parent, field, ss);
      AllUnderAppend(own + ns, ss, parent);
      assert FieldDates(field, p, parent).value == own + ns + ss;
  }

  lemma {:induction false} SubFieldsDatesUnder(subs: seq<(string, Json)>, full: string)
    requires full != [] && SubFieldsDates(subs, full).Success?
    ensures AllUnder(SubFieldsDates(subs, full).value, full)
    decreases SizeEntries(subs), 2
  {
    if subs != [] {
      EntrySmaller(subs, 0);
      TailSmaller(subs);
      var (sub, sp) := subs[0];
      var key := full + "." + sub;
      assert key[..|full| + 1] == full + ".";
      if Lookup(sp.entries, "properties").Some? {
        DateFieldsUnder(sp.entries, key);
        forall x | x in DateFields(sp.entries, key).value ensures |full| + 1 <= |x| && x[..|full| + 1] == full + "." {
          PrefixCompose(full, sub, x);
        }
      }
      SubFieldsDatesUnder(subs[1..], full);
    }
  }

  // Soundness: every reported path names a date-typed definition that the
  // search reaches.

  /** One step down a mapping: into the `k`-th entry of its `properties`, or
      into the `j`-th entry of its `fields` (a multi-field). */
  datatype Step = IntoProperty(k: nat) | IntoMultiField(j: nat)

  /** `f"{full_key}.{sub_field}"`, the dotted path of a multi-field. */
  function SubKey(full: string, sub: string): string
  {
    full + "." + sub
  }

  /** The definition reached from `m`, whose dotted path is `path`, by
      following `steps`, paired with the dotted path of what is reached; None
      when a step names no entry or leads to a value that is not an object.
      A property extends the path as `FullKey` does, a multi-field by a dot
      and its name. */
  function Follow(m: seq<(string, Json)>, path: string, steps: seq<Step>): Option<(seq<(string, Json)>, string)>
    decreases |steps|
  {
    if steps == [] then Some((m, path))
    else
      var i := if steps[0].IntoProperty? then steps[0].k else steps[0].j;
      match Lookup(m, if steps[0].IntoProperty? then "properties" else "fields")
      case Some(JObj(es)) =>
        if i < |es| && es[i].1.JObj? then
          var next := if steps[0].IntoProperty? then FullKey(path, es[i].0) else SubKey(path, es[i].0);
          Follow(es[i].1.entries, next, steps[1..])
        else None
      case _ => None
  }

  /** A descent the search makes: it starts with a property, and a
      multi-field step is the last or is followed by a property (the
      multi-fields of a multi-field are not searched). */
  predicate Descent(steps: seq<Step>)
    decreases |steps|, 0
  {
    steps != [] && steps[0].IntoProperty? && AfterProperty(steps[1..])
  }

  /** What may follow a property step. */
  predicate AfterProperty(t: seq<Step>)
    decreases |t|, 1
  {
    t == [] || Descent(t) || (t[0].IntoMultiField? && AfterMultiField(t[1..]))
  }

  /** What may follow a multi-field step. */
  predicate AfterMultiField(u: seq<Step>)
    decreases |u|, 1
  {
    u == [] || Descent(u)
  }

  /** Following `steps` from `m` reaches a date-typed definition whose dotted
      path is `x`. */
  predicate Reaches(m: seq<(string, Json)>, path: string, steps: seq<Step>, x: string)
  {
    match Follow(m, path, steps)
    case Some((d, p)) => p == x && IsDateType(d)
    case None => false
  }

  /** Every path `get_date_fields` reports is the dotted path of a date-typed
      field or multi-field that a descent through `properties` and `fields`
      reaches. */
  lemma {:induction false} DateFieldsSound(m: seq<(string, Json)>, parent: string, x: string)
    requires DateFields(m, parent).Success? && x in DateFields(m, parent).value
    ensures exists steps :: Descent(steps) && Reaches(m, parent, steps, x)
    decreases SizeEntries(m), 3
  {
    var props := Lookup(m, "properties").value;
    LookupSmaller(m, "properties");
    var fs := props.entries;
    FieldsDatesSound(fs, parent, x);
    var k, t :| 0 <= k < |fs| && fs[k].1.JObj? && AfterProperty(t) && Reaches(fs[k].1.entries, FullKey(parent, fs[k].0), t, x);
    var steps := [IntoProperty(k)] + t;
    assert steps[1..] == t;
    assert Follow(m, parent, steps) == Follow(fs[k].1.entries, FullKey(parent, fs[k].0), t);
    assert Descent(steps) && Reaches(m, parent, steps, x);
  }

  lemma {:induction false} FieldsDatesSound(fs: seq<(string, Json)>, parent: string, x: string)
    requires FieldsDates(fs, parent).Success? && x in FieldsDates(fs, parent).value
    ensures exists k, t :: 0 <= k < |fs| && fs[k].1.JObj? && AfterProperty(t) && Reaches(fs[k].1.entries, FullKey(parent, fs[k].0), t, x)
    decreases SizeEntries(fs), 2
  {
    EntrySmaller(fs, 0);
    TailSmaller(fs);
    var rest := fs[1..];
    assert FieldsDates(fs, parent).value == FieldDates(fs[0].0, fs[0].1, parent).value + FieldsDates(rest, parent).value;
    if x in FieldDates(fs[0].0, fs[0].1, parent).value {
      FieldDatesSound(fs[0].0, fs[0].1, parent, x);
      var t :| AfterProperty(t) && Reaches(fs[0].1.entries, FullKey(parent, fs[0].0), t, x);
      assert 0 < |fs| && fs[0].1.JObj?;
    } else {
      FieldsDatesSound(rest, parent, x);
      var k, t :| 0 <= k < |rest| && rest[k].1.JObj? && AfterProperty(t) && Reaches(rest[k].1.entries, FullKey(parent, rest[k].0), t, x);
      assert rest[k] == fs[k + 1];
    }
  }

  lemma {:induction false} FieldDatesSound(field: string, p: Json, parent: string, x: string)
    requires FieldDates(field, p, parent).Success? && x in FieldDates(field, p, parent).value
    ensures p.JObj? && exists t :: AfterProperty(t) && Reaches(p.entries, FullKey(parent, field), t, x)
    decreases Size(p), 1
  {
    var pe := p.entries;
    var full := FullKey(parent, field);
    FieldDatesParts(field, p, parent);
    if IsDateType(pe) && x == full {
      assert Reaches(pe, full, [], x);
    } else if Lookup(pe, "properties").Some? && x in DateFields(pe, full).value {
      DateFieldsSound(pe, full, x);
      var t :| Descent(t) && Reaches(pe, full, t, x);
      assert AfterProperty(t);
    } else {
      var subs := Lookup(pe, "fields").value.entries;
      LookupSmaller(pe, "fields");
      SubFieldsDatesSound(subs, full, x);
      var j, u :| 0 <= j < |subs| && subs[j].1.JObj? && AfterMultiField(u) && Reaches(subs[j].1.entries, SubKey(full, subs[j].0), u, x);
      MultiFieldStep(pe, full, j, u, x);
    }
  }

  /** A successful field contributes itself when date-typed, then what its
      nested properties and its multi-fields contribute. */
  lemma FieldDatesParts(field: string, p: Json, parent: string)
    requires FieldDates(field, p, parent).Success?
    ensures p.JObj?
    ensures Lookup(p.entries, "properties").Some? ==> DateFields(p.entries, FullKey(parent, field)).Success?
    ensures Lookup(p.entries, "fields").Some? ==> Lookup(p.entries, "fields").value.JObj? && SubFieldsDates(Lookup(p.entries, "fields").value.entries, FullKey(parent, field)).Success?
    ensures forall x :: x in FieldDates(field, p, parent).value ==>
      || (IsDateType(p.entries) && x == FullKey(parent, field))
      || (Lookup(p.entries, "properties").Some? && x in DateFields(p.entries, FullKey(parent, field)).value)
      || (Lookup(p.entries, "fields").Some? && x in SubFieldsDates(Lookup(p.entries, "fields").value.entries, FullKey(parent, field)).value)
  {
    var pe := p.entries;
    var full := FullKey(parent, field);
    var own := if IsDateType(pe) then [full] else [];
    var ns := if Lookup(pe, "properties").Some? then DateFields(pe, full).value else [];
    var ss := if Lookup(pe, "fields").Some? then SubFieldsDates(Lookup(pe, "fields").value.entries, full).value else [];
    assert FieldDates(field, p, parent).value == own + ns + ss;
  }

  /** A multi-field step in front of a descent from the multi-field. */
  lemma MultiFieldStep(pe: seq<(string, Json)>, full: string, j: nat, u: seq<Step>, x: string)
    requires Lookup(pe, "fields").Some? && Lookup(pe, "fields").value.JObj?
    requires var subs := Lookup(pe, "fields").value.entries;
      j < |subs| && subs[j].1.JObj? && AfterMultiField(u) && Reaches(subs[j].1.entries, SubKey(full, subs[j].0), u, x)
    ensures AfterProperty([IntoMultiField(j)] + u) && Reaches(pe, full, [IntoMultiField(j)] + u, x)
  {
    var subs := Lookup(pe, "fields").value.entries;
    var t := [IntoMultiField(j)] + u;
    assert t[1..] == u;
    assert Follow(pe, full, t) == Follow(subs[j].1.entries, SubKey(full, subs[j].0), u);
  }

  lemma {:induction false} SubFieldsDatesSound(subs: seq<(string, Json)>, full: string, x: string)
    requires SubFieldsDates(subs, full).Success? && x in SubFieldsDates(subs, full).value
    ensures exists j, u :: 0 <= j < |subs| && subs[j].1.JObj? && AfterMultiField(u) && Reaches(subs[j].1.entries, SubKey(full, subs[j].0), u, x)
    decreases SizeEntries(subs), 2
  {
    EntrySmaller(subs, 0);
    TailSmaller(subs);
    var rest := subs[1..];
    assert SubFieldsDates(subs, full).value == SubFieldDates(subs[0].0, subs[0].1, full).value + SubFieldsDates(rest, full).value;
    if x in SubFieldDates(subs[0].0, subs[0].1, full).value {
      SubFieldDatesSound(subs[0].0, subs[0].1, full, x);
      var u :| AfterMultiField(u) && Reaches(subs[0].1.entries, SubKey(full, subs[0].0), u, x);
      assert 0 < |subs| && subs[0].1.JObj?;
    } else {
      SubFieldsDatesSound(rest, full, x);
      var j, u :| 0 <= j < |rest| && rest[j].1.JObj? && AfterMultiField(u) && Reaches(rest[j].1.entries, SubKey(full, rest[j].0), u, x);
      assert rest[j] == subs[j + 1];
    }
  }

  lemma {:induction false} SubFieldDatesSound(sub: string, sp: Json, full: string, x: string)
    requires SubFieldDates(sub, sp, full).Success? && x in SubFieldDates(sub, sp, full).value
    ensures sp.JObj? && exists u :: AfterMultiField(u) && Reaches(sp.entries, SubKey(full, sub), u, x)
    decreases Size(sp), 1
  {
    var key := SubKey(full, sub);
    if IsDateType(sp.entries) && x == key {
      assert Reaches(sp.entries, key, [], x);
    } else {
      var own := if IsDateType(sp.entries) then [key] else [];
      assert SubFieldDates(sub, sp, full).value == own + DateFields(sp.entries, key).value;
      DateFieldsSound(sp.entries, key, x);
    }
  }

  // ---------------------------------------------------------------------------
  // get_field_value / set_field_value
  // ---------------------------------------------------------------------------

  /** The value at the path of keys, or None (`JNull`) as soon as a key is
      missing or the current value is not an object. As in Python, a stored
      null and a missing path give the same answer. */
  function GetPath(doc: Json, parts: seq<string>): Json
  {
    if parts == [] then doc
    else if doc.JObj? && Lookup(doc.entries, parts[0]).Some? then GetPath(Lookup(doc.entries, parts[0]).value, parts[1..])
    else JNull
  }

  /** `get_field_value`. */
  method GetFieldValue(doc: Json, fieldPath: string) returns (r: Json)
    ensures r == GetPath(doc, Split(fieldPath, "."))
  {
    var parts := Split(fieldPath, ".");
    var current := doc;
    for i := 0 to |parts|
      invariant GetPath(current, parts[i..]) == GetPath(doc, parts)
    {
      assert parts[i..][0] == parts[i] && parts[i..][1..] == parts[i + 1..];
      var next := if current.JObj? then Lookup(current.entries, parts[i]) else None;
      if next.Some? {
        current := next.value;
      } else {
        return JNull;
      }
    }
    assert parts[|parts|..] == [];
    r := current;
  }

  /** Every key of the path exists, each value along it being an object. */
  predicate PathPresent(doc: Json, parts: seq<string>)
  {
    && parts != [] && doc.JObj? && Lookup(doc.entries, parts[0]).Some?
    && (|parts| > 1 ==> PathPresent(Lookup(doc.entries, parts[0]).value, parts[1..]))
  }

  /** `d[key] = v` on an existing key: the entry keeps its place. */
  function Update(es: seq<(string, Json)>, key: string, v: Json): (r: seq<(string, Json)>)
    ensures |r| == |es| && forall k :: 0 <= k < |es| ==> r[k].0 == es[k].0
    ensures Lookup(es, key).Some? ==> Lookup(r, key) == Some(v)
    ensures forall other :: other != key ==> Lookup(r, other) == Lookup(es, other)
  {
    if es == [] then []
    else if es[0].0 == key then [(key, v)] + es[1..]
    else [es[0]] + Update(es[1..], key, v)
  }

  function Keys(j: Json): seq<string>
  {
    match j
    case JObj(es) => seq(|es|, k requires 0 <= k < |es| => es[k].0)
    case _ => []
  }

  /** `set_field_value`: whether it wrote, and the document after. It writes
      exactly when the whole path is present, never adds a key, keeps every
      other top-level entry, and leaves the document unchanged when it does
      not write. */
  function SetPath(doc: Json, parts: seq<string>, value: Json): (r: (bool, Json))
    requires parts != []
    ensures r.0 <==> PathPresent(doc, parts)
    ensures !r.0 ==> r.1 == doc
    ensures Keys(r.1) == Keys(doc)
    ensures r.1.JObj? <==> doc.JObj?
    ensures doc.JObj? ==> forall other :: other != parts[0] ==> Lookup(r.1.entries, other) == Lookup(doc.entries, other)
  {
    if !doc.JObj? || Lookup(doc.entries, parts[0]).None? then (false, doc)
    else if |parts| == 1 then (true, JObj(Update(doc.entries, parts[0], value)))
    else
      var (written, child) := SetPath(Lookup(doc.entries, parts[0]).value, parts[1..], value);
      if written then (true, JObj(Update(doc.entries, parts[0], child))) else (false, doc)
  }

  /** Reading a path after writing it gives the written value. */
  lemma {:induction false} GetAfterSet(doc: Json, parts: seq<string>, value: Json)
    requires parts != [] && SetPath(doc, parts, value).0
    ensures GetPath(SetPath(doc, parts, value).1, parts) == value
  {
    if |parts| > 1 {
      GetAfterSet(Lookup(doc.entries, parts[0]).value, parts[1..], value);
    }
  }

  /** A path that is not present reads as None. */
  lemma {:induction false} GetMissing(doc: Json, parts: seq<string>)
    requires parts != [] && !PathPresent(doc, parts)
    ensures GetPath(doc, parts) == JNull
  {
    if doc.JObj? && Lookup(doc.entries, parts[0]).Some? && |parts| > 1 {
      GetMissing(Lookup(doc.entries, parts[0]).value, parts[1..]);
    }
  }

  /** Writing one path leaves every path that leaves it before either ends
      as it was. */
  lemma {:induction false} SetLeavesOthers(doc: Json, parts: seq<string>, value: Json, q: seq<string>, i: nat)
    requires i < |parts| && i < |q| && q[..i] == parts[..i] && q[i] != parts[i]
    ensures GetPath(SetPath(doc, parts, value).1, q) == GetPath(doc, q)
  {
    if i > 0 && SetPath(doc, parts, value).0 {
      assert q[0] == q[..i][0] == parts[..i][0] == parts[0];
      assert q[1..][..i - 1] == q[..i][1..] && parts[1..][..i - 1] == parts[..i][1..];
      SetLeavesOthers(Lookup(doc.entries, parts[0]).value, parts[1..], value, q[1..], i - 1);
    }
  }

  /** `set_field_value`: the walk to the parent of the last key, then the
      write when the last key exists there. */
  method SetFieldValue(doc: Json, fieldPath: string, value: Json) returns (written: bool, after: Json)
    ensures (written, after) == SetPath(doc, Split(fieldPath, "."), value)
  {
    var parts := Split(fieldPath, ".");
    var current := doc;
    for i := 0 to |parts| - 1
      invariant PathPresent(current, parts[i..]) == PathPresent(doc, parts)
    {
      assert parts[i..][0] == parts[i] && parts[i..][1..] == parts[i + 1..];
      if current.JObj? && Lookup(current.entries, parts[i]).Some? {
        current := Lookup(current.entries, parts[i]).value;
      } else {
        return false, doc;
      }
    }
    var last := parts[|parts| - 1];
    assert parts[|parts| - 1..] == [last];
    if current.JObj? && Lookup(current.entries, last).Some? {
      written, after := true, SetPath(doc, parts, value).1;
    } else {
      written, after := false, doc;
    }
  }
}
