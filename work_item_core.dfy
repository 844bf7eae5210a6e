/**
 * The field bag at the bottom of every work item: a mutable dictionary from field
 * reference names to values, case-insensitive unless the creator supplies its own
 * dictionary, read and written through the indexer, GetValue/SetValue and the
 * field-definition accessors.
 */
module WorkItemFields {
  import opened Wrappers
  import opened DotNetStrings

  /** The exception raised for a null argument, with the parameter's name. */
  datatype FieldError = ArgumentNull(paramName: string)

  /** A field definition; only its reference name, which may be null, is read here. */
  datatype FieldDefinition = FieldDefinition(referenceName: Option<string>)

  /**
   * A Dictionary<string, object> whose key comparer is either ordinal or
   * OrdinalIgnoreCase. `entries` is keyed by each name's comparison key, and a
   * stored null is `None`.
   */
  class FieldDictionary<V> {
    const ignoreCase: bool
    var entries: map<string, Option<V>>

    /** The key the comparer identifies `name` with. */
    function Key(name: string): string
    {
      if ignoreCase then Fold(name) else name
    }

    /** Every stored key is its own comparison key. */
    ghost predicate Valid()
      reads this
    {
      forall k | k in entries :: Key(k) == k
    }

    /** What a lookup of `name` yields: the stored value, or null when the key is absent. */
    function Lookup(name: string): Option<V>
      reads this
    {
      if Key(name) in entries then entries[Key(name)] else None
    }

    /** A new, empty dictionary with the given comparer. */
    constructor (ignoreCase: bool)
      ensures this.ignoreCase == ignoreCase
      ensures entries == map[]
      ensures Valid()
    {
      this.ignoreCase := ignoreCase;
      entries := map[];
    }

    /** TryGetValue: whether some stored key equals `name` under the comparer, and its value (null if none). */
    method TryGetValue(name: string) returns (found: bool, value: Option<V>)
      requires Valid()
      ensures found <==> exists k | k in entries :: Key(k) == Key(name)
      ensures found ==> value == entries[Key(name)]
      ensures !found ==> value == None
    {
      FoldIdempotent(name);
      found := Key(name) in entries;
      value := if found then entries[Key(name)] else None;
    }

    /** The indexer setter: adds the key, or overwrites the value of the key that equals it. */
    method Put(name: string, value: Option<V>)
      requires Valid()
      modifies this
      ensures Valid()
      ensures entries == old(entries)[Key(name) := value]
    {
      FoldIdempotent(name);
      entries := entries[Key(name) := value];
    }
  }

  /** A work item's field storage. */
  class WorkItemCore<V> {
    const fields: FieldDictionary<V>

    ghost predicate Valid()
      reads this, fields
    {
      fields.Valid()
    }

    /** Creates an item over `fields`, or over a new empty case-insensitive dictionary when it is null. */
    constructor (fields: FieldDictionary?<V>)
      requires fields != null ==> fields.Valid()
      ensures fields != null ==> this.fields == fields
      ensures fields == null ==> fresh(this.fields) && this.fields.ignoreCase && this.fields.entries == map[]
      ensures Valid()
    {
      if fields == null {
        this.fields := new FieldDictionary(true);
      } else {
        this.fields := fields;
      }
    }

    /** The parameterless constructor: the same as passing a null dictionary. */
    constructor Empty()
      ensures fresh(fields) && fields.ignoreCase && fields.entries == map[]
      ensures Valid()
    {
      fields := new FieldDictionary(true);
    }

    /**
     * GetValue: the value stored under `name`, or null when there is none. A null
     * name is rejected by the dictionary itself, as its `key` parameter.
     */
    method GetValue(name: Option<string>) returns (r: Result<Option<V>, FieldError>)
      requires Valid()
      ensures name.None? ==> r == Failure(ArgumentNull("key"))
      ensures name.Some? ==> r == Success(fields.Lookup(name.value))
    {
      if name.None? {
        return Failure(ArgumentNull("key"));
      }
      var found, value := fields.TryGetValue(name.value);
      r := Success(if found then value else None);
    }

    /**
     * SetValue: afterwards every name the comparer identifies with `name` reads
     * `value`, and every other name reads what it read before.
     */
    method SetValue(name: Option<string>, value: Option<V>) returns (r: Outcome<FieldError>)
      requires Valid()
      modifies fields
      ensures Valid()
      ensures name.None? ==> r == Fail(ArgumentNull("key")) && fields.entries == old(fields.entries)
      ensures name.Some? ==> r == Pass
      ensures name.Some? ==> fields.entries == old(fields.entries)[fields.Key(name.value) := value]
      ensures name.Some? ==>
                forall n :: fields.Lookup(n) == (if fields.Key(n) == fields.Key(name.value) then value else old(fields.Lookup(n)))
    {
      if name.None? {
        return Fail(ArgumentNull("key"));
      }
      fields.Put(name.value, value);
      r := Pass;
    }

    /** The indexer getter: a null name is rejected, any other name is looked up. */
    method GetItem(name: Option<string>) returns (r: Result<Option<V>, FieldError>)
      requires Valid()
      ensures name.None? ==> r == Failure(ArgumentNull("name"))
      ensures name.Some? ==> r == Success(fields.Lookup(name.value))
    {
      if name.None? {
        return Failure(ArgumentNull("name"));
      }
      r := GetValue(name);
    }

    /**
     * The indexer setter: a null name is rejected and nothing changes; otherwise the
     * value is stored, and on the case-insensitive store every spelling of the name
     * that differs only in case reads it back.
     */
    method SetItem(name: Option<string>, value: Option<V>) returns (r: Outcome<FieldError>)
      requires Valid()
      modifies fields
      ensures Valid()
      ensures name.None? ==> r == Fail(ArgumentNull("name")) && fields.entries == old(fields.entries)
      ensures name.Some? ==> r == Pass
      ensures name.Some? ==> fields.entries == old(fields.entries)[fields.Key(name.value) := value]
      ensures name.Some? ==>
                forall n :: fields.Lookup(n) == (if fields.Key(n) == fields.Key(name.value) then value else old(fields.Lookup(n)))
      ensures name.Some? && fields.ignoreCase ==>
                forall n | EqualsIgnoreCase(n, name.value) :: fields.Lookup(n) == value
    {
      if name.None? {
        return Fail(ArgumentNull("name"));
      }
      r := SetValue(name, value);
    }

    /** GetCurrentFieldValue: a null definition is rejected, otherwise its reference name is looked up. */
    method GetCurrentFieldValue(definition: Option<FieldDefinition>) returns (r: Result<Option<V>, FieldError>)
      requires Valid()
      ensures definition.None? ==> r == Failure(ArgumentNull("fieldDefinition"))
      ensures definition.Some? && definition.value.referenceName.None? ==> r == Failure(ArgumentNull("key"))
      ensures definition.Some? && definition.value.referenceName.Some? ==>
                r == Success(fields.Lookup(definition.value.referenceName.value))
    {
      if definition.None? {
        return Failure(ArgumentNull("fieldDefinition"));
      }
      r := GetValue(definition.value.referenceName);
    }

    /** SetFieldValue: a null definition is rejected and nothing changes, otherwise its reference name is set. */
    method SetFieldValue(definition: Option<FieldDefinition>, value: Option<V>) returns (r: Outcome<FieldError>)
      requires Valid()
      modifies fields
      ensures Valid()
      ensures definition.None? ==> r == Fail(ArgumentNull("fieldDefinition")) && fields.entries == old(fields.entries)
      ensures definition.Some? && definition.value.referenceName.None? ==>
                r == Fail(ArgumentNull("key")) && fields.entries == old(fields.entries)
      ensures definition.Some? && definition.value.referenceName.Some? ==> r == Pass
      ensures definition.Some? && definition.value.referenceName.Some? ==>
                fields.entries == old(fields.entries)[fields.Key(definition.value.referenceName.value) := value]
      ensures definition.Some? && definition.value.referenceName.Some? ==>
                forall n :: fields.Lookup(n) ==
                  (if fields.Key(n) == fields.Key(definition.value.referenceName.value) then value else old(fields.Lookup(n)))
    {
      if definition.None? {
        return Fail(ArgumentNull("fieldDefinition"));
      }
      r := SetValue(definition.value.referenceName, value);
    }
  }
}
