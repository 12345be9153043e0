/**
 * The attribute-identifier reference and the typed lookup and writer helpers
 * of the geometry attribute API, over a store that maps attribute names to
 * their domain, data type, values and optional change-notification callback.
 */
module Attributes {
  import opened Options

  /** An anonymous attribute id: its generated name and its identity. */
  datatype AnonymousId = AnonymousId(name: string, key: nat)

  /** A borrowed attribute identifier: a name, plus the anonymous id it was made from, if any. */
  datatype AttributeIDRef = AttributeIDRef(name: string, anonymous: Option<AnonymousId>)

  /** The default identifier: empty name, not anonymous. */
  function DefaultID(): (r: AttributeIDRef)
    ensures r.name == [] && r.anonymous.None?
  {
    AttributeIDRef([], None)
  }

  /** Identifier from a plain name (string, string reference or C string alike). */
  function IDFromName(name: string): (r: AttributeIDRef)
    ensures r.name == name && r.anonymous.None?
  {
    AttributeIDRef(name, None)
  }

  /** Identifier borrowing an anonymous id: its name, and the id itself. */
  function IDFromAnonymous(a: AnonymousId): (r: AttributeIDRef)
    ensures r.name == a.name && r.anonymous == Some(a)
  {
    AttributeIDRef(a.name, Some(a))
  }

  /** Identifier from a possibly null anonymous-id pointer: null gives the empty name. */
  function IDFromAnonymousPtr(p: Option<AnonymousId>): (r: AttributeIDRef)
    ensures p.None? ==> r.name == [] && r.anonymous.None?
    ensures p.Some? ==> r.name == p.value.name && r.anonymous == p
  {
    AttributeIDRef(if p.Some? then p.value.name else [], p)
  }

  /** An identifier is truthy iff its name is non-empty. */
  predicate Truthy(id: AttributeIDRef)
  {
    |id.name| > 0
  }

  predicate IsAnonymous(id: AttributeIDRef)
  {
    id.anonymous.Some?
  }

  /** Identifier equality compares names only. */
  predicate IDEq(a: AttributeIDRef, b: AttributeIDRef)
  {
    a.name == b.name
  }

  /** The hash of an identifier, under a string hash `h`: the hash of its name. */
  function IDHash(h: string -> nat, id: AttributeIDRef): nat
  {
    h(id.name)
  }

  /**
   * The identifier constructors: a null pointer gives the default identifier,
   * a non-null one the same identifier as the referenced id; only identifiers
   * with a non-empty name are truthy; and a named and an anonymous identifier
   * with the same name compare equal.
   */
  lemma IDConstructors(name: string, a: AnonymousId)
    ensures IDFromAnonymousPtr(None) == DefaultID() && !Truthy(DefaultID()) && !IsAnonymous(DefaultID())
    ensures IDFromAnonymousPtr(Some(a)) == IDFromAnonymous(a) && IsAnonymous(IDFromAnonymous(a))
    ensures Truthy(IDFromName(name)) <==> name != []
    ensures !IsAnonymous(IDFromName(name))
    ensures IDEq(IDFromName(name), IDFromAnonymous(a)) <==> name == a.name
  {
  }

  /** Equality is an equivalence, and equal identifiers hash equally under every string hash. */
  lemma IDEqLaws(a: AttributeIDRef, b: AttributeIDRef, c: AttributeIDRef, h: string -> nat)
    ensures IDEq(a, a)
    ensures IDEq(a, b) ==> IDEq(b, a)
    ensures IDEq(a, b) && IDEq(b, c) ==> IDEq(a, c)
    ensures IDEq(a, b) ==> IDHash(h, a) == IDHash(h, b)
  {
  }

  // ---------------------------------------------------------------------------
  // Store and accessors

  /** Attribute domains; `Point` is the zero value a value-initialised writer holds. */
  datatype Domain = Point | Edge | Face | Corner | Curve | Instance

  datatype DataType = Bool | Int8 | Int32 | Float | Float2 | Float3 | Color | ByteColor | Str

  /**
   * A stored attribute: its domain, data type, values, and whether it carries
   * a change-notification callback.
   */
  datatype Attribute = Attribute(domain: Domain, dataType: DataType, values: seq<int>, tagged: bool)

  /** The owner of the attributes; `None` stands for a null owner. */
  datatype Accessor = Accessor(owner: Option<map<string, Attribute>>, domainSize: Domain -> nat)

  /** A read-only view: the values (possibly virtual) and the domain they live on. */
  datatype Reader = Reader(values: seq<int>, domain: Domain)

  /**
   * Typed read lookup on a domain: the attribute of that name when it is
   * stored with type `t` on that domain.
   */
  function Lookup(acc: Accessor, id: AttributeIDRef, domain: Domain, t: DataType): (r: Option<Reader>)
    requires acc.owner.Some?
    ensures r.Some? <==> id.name in acc.owner.value && acc.owner.value[id.name].dataType == t
                         && acc.owner.value[id.name].domain == domain
    ensures r.Some? ==> r.value == Reader(acc.owner.value[id.name].values, domain)
  {
    var attrs := acc.owner.value;
    if id.name in attrs && attrs[id.name].dataType == t && attrs[id.name].domain == domain
    then Some(Reader(attrs[id.name].values, domain))
    else None
  }

  /** A single value repeated `n` times: a constant virtual array. */
  function ForSingle(v: int, n: nat): (r: seq<int>)
    ensures |r| == n && forall i :: 0 <= i < n ==> r[i] == v
  {
    seq(n, _ => v)
  }

  /**
   * Typed lookup with a fallback: the attribute when found, otherwise a
   * constant array of `default` as long as the domain.
   */
  function LookupOrDefault(acc: Accessor, id: AttributeIDRef, domain: Domain, t: DataType, default: int): (r: Reader)
    requires acc.owner.Some?
    ensures r.domain == domain
    ensures Lookup(acc, id, domain, t).Some? ==> r == Lookup(acc, id, domain, t).value
    ensures Lookup(acc, id, domain, t).None? ==>
              |r.values| == acc.domainSize(domain) && forall i :: 0 <= i < |r.values| ==> r.values[i] == default
  {
    match Lookup(acc, id, domain, t)
    case Some(reader) => reader
    case None => Reader(ForSingle(default, acc.domainSize(domain)), domain)
  }

  /**
   * Visits every attribute of a non-null owner. The storage hands out the
   * attributes in `order` (their names), which lists every stored attribute
   * and nothing else, and stops at the first callback that returns false;
   * `r.1` counts callback calls. A null owner yields true without calling back.
   */
  function ForAll(acc: Accessor, order: seq<string>, callback: (string, Attribute) -> bool): (r: (bool, nat))
    requires acc.owner.Some? ==> forall k :: 0 <= k < |order| ==> order[k] in acc.owner.value
    requires acc.owner.Some? ==> forall n :: n in acc.owner.value ==> n in order
    ensures acc.owner.None? ==> r == (true, 0)
    ensures acc.owner.Some? ==> (r.0 <==> forall n :: n in acc.owner.value ==> callback(n, acc.owner.value[n]))
    ensures acc.owner.Some? ==>
              && r.1 <= |order|
              && (r.0 <==> forall k :: 0 <= k < |order| ==> callback(order[k], acc.owner.value[order[k]]))
              && (forall k :: 0 <= k < r.1 - 1 ==> callback(order[k], acc.owner.value[order[k]]))
  {
    if acc.owner.None? then (true, 0)
    else
      var attrs := acc.owner.value;
      var r := Visit(attrs, order, callback);
      assert r.0 ==> forall n :: n in attrs ==> callback(n, attrs[n]) by {
        if r.0 {
          forall n | n in attrs
            ensures callback(n, attrs[n])
          {
            var k :| 0 <= k < |order| && order[k] == n;
          }
        }
      }
      r
  }

  /** Calls back on `order` until a callback returns false. */
  function Visit(attrs: map<string, Attribute>, order: seq<string>, callback: (string, Attribute) -> bool): (r: (bool, nat))
    requires forall k :: 0 <= k < |order| ==> order[k] in attrs
    ensures r.1 <= |order|
    ensures r.0 <==> forall k :: 0 <= k < |order| ==> callback(order[k], attrs[order[k]])
    ensures forall k :: 0 <= k < r.1 - 1 ==> callback(order[k], attrs[order[k]])
    ensures !r.0 ==> r.1 > 0 && !callback(order[r.1 - 1], attrs[order[r.1 - 1]])
    ensures r.0 ==> r.1 == |order|
  {
    if |order| == 0 then (true, 0)
    else if !callback(order[0], attrs[order[0]]) then (false, 1)
    else
      var rest := Visit(attrs, order[1..], callback);
      assert forall k :: 1 <= k < |order| ==> order[k] == order[1..][k - 1];
      (rest.0, rest.1 + 1)
  }

  // ---------------------------------------------------------------------------
  // Writers

  /**
   * A writer: the writable array when there is one, the domain, whether a
   * change-notification callback is attached, and the data type of the array.
   */
  datatype Writer = Writer(varray: Option<seq<int>>, domain: Domain, tagged: bool, dataType: DataType)

  /** A value-initialised writer: no array, the zero domain, no callback. */
  function EmptyWriter(): (w: Writer)
    ensures w.varray.None? && !w.tagged
  {
    Writer(None, Point, false, Bool)
  }

  /** Untyped write lookup: a writer over the named attribute, or an empty one. */
  function LookupForWriteGeneric(attrs: map<string, Attribute>, id: AttributeIDRef): (w: Writer)
    ensures w.varray.Some? <==> id.name in attrs
  {
    if id.name in attrs then
      var a := attrs[id.name];
      Writer(Some(a.values), a.domain, a.tagged, a.dataType)
    else EmptyWriter()
  }

  /** Typed write lookup: empty when the attribute is missing or not stored as `t`. */
  function LookupForWrite(attrs: map<string, Attribute>, id: AttributeIDRef, t: DataType): (w: Writer)
    ensures w.varray.Some? <==> id.name in attrs && attrs[id.name].dataType == t
    ensures w.varray.Some? ==>
              var a := attrs[id.name];
              w == Writer(Some(a.values), a.domain, a.tagged, t)
    ensures w.varray.None? ==> w == EmptyWriter()
  {
    var g := LookupForWriteGeneric(attrs, id);
    if g.varray.None? then EmptyWriter()
    else if g.dataType != t then EmptyWriter()
    else g
  }

  /** A span writer: the span copied out of the array (if any), the array, the domain and the callback flag. */
  datatype SpanWriter = SpanWriter(span: seq<int>, varray: Option<seq<int>>, domain: Domain, tagged: bool)

  /** Span write lookup: non-empty exactly when the typed write lookup is, and then starting from the stored values. */
  function LookupForWriteSpan(attrs: map<string, Attribute>, id: AttributeIDRef, t: DataType): (w: SpanWriter)
    ensures w.varray.Some? <==> LookupForWrite(attrs, id, t).varray.Some?
    ensures w.varray.Some? ==>
              && w.span == attrs[id.name].values
              && w.varray == Some(attrs[id.name].values)
              && w.domain == attrs[id.name].domain && w.tagged == attrs[id.name].tagged
    ensures w.varray.None? ==> w.span == [] && !w.tagged
  {
    var a := LookupForWrite(attrs, id, t);
    if a.varray.Some? then SpanWriter(a.varray.value, a.varray, a.domain, a.tagged)
    else SpanWriter([], None, Point, false)
  }

  /** Observable effects of finishing a writer. */
  datatype Effect = Save(values: seq<int>) | TagModified

  /** Finishing a plain writer only notifies, when a callback is attached. */
  function WriterFinish(w: Writer): (e: seq<Effect>)
    ensures |e| <= 1 && forall i :: 0 <= i < |e| ==> !e[i].Save?
    ensures TagModified in e <==> w.tagged
  {
    if w.tagged then [TagModified] else []
  }

  /**
   * Finishing a span writer: the span is written back to the array first
   * (when there is one), then the callback runs (when attached).
   */
  function SpanWriterFinish(w: SpanWriter): (e: seq<Effect>)
    ensures |e| == (if w.varray.Some? then 1 else 0) + (if w.tagged then 1 else 0)
    ensures Save(w.span) in e <==> w.varray.Some?
    ensures TagModified in e <==> w.tagged
    ensures forall i, j :: 0 <= i < j < |e| ==> e[i].Save? && e[j] == TagModified
  {
    (if w.varray.Some? then [Save(w.span)] else []) + (if w.tagged then [TagModified] else [])
  }

  /**
   * Writing through a span writer and finishing it stores the edited span:
   * applying the saved values to the store puts them under the attribute's
   * name and leaves every other attribute untouched.
   */
  function ApplyFinish(attrs: map<string, Attribute>, id: AttributeIDRef, w: SpanWriter): (r: map<string, Attribute>)
    requires id.name in attrs
    ensures r.Keys == attrs.Keys
    ensures forall n :: n in attrs && n != id.name ==> r[n] == attrs[n]
    ensures w.varray.Some? ==> r[id.name] == attrs[id.name].(values := w.span)
    ensures w.varray.None? ==> r == attrs
  {
    var e := SpanWriterFinish(w);
    if |e| > 0 && e[0].Save? then attrs[id.name := attrs[id.name].(values := e[0].values)] else attrs
  }

  /** Finishing an unedited span writer leaves the store as it was. */
  lemma SpanRoundTrip(attrs: map<string, Attribute>, id: AttributeIDRef, t: DataType)
    requires id.name in attrs
    ensures ApplyFinish(attrs, id, LookupForWriteSpan(attrs, id, t)) == attrs
  {
  }

  /** Writing `vals` through the span and finishing makes a later typed lookup read them back. */
  lemma SpanWriteThenLookup(attrs: map<string, Attribute>, id: AttributeIDRef, t: DataType, vals: seq<int>, sizes: Domain -> nat)
    requires id.name in attrs && attrs[id.name].dataType == t
    ensures var w := LookupForWriteSpan(attrs, id, t);
            var r := ApplyFinish(attrs, id, w.(span := vals));
            Lookup(Accessor(Some(r), sizes), id, attrs[id.name].domain, t) == Some(Reader(vals, attrs[id.name].domain))
  {
  }
}
