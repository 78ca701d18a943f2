/** What reflection tells the library about a model type. A model class is
    described by its names, its @Table annotation and its declared fields in
    declaration order; a model instance by the values of its fields. */
module Metadata {
  import opened Wrappers
  import opened JavaValues

  /** @Column(name, updateOnDuplicate) on a field. */
  datatype ColumnAnnotation = ColumnAnnotation(name: string, updateOnDuplicate: bool)

  /** @Table(name, pk) on a model class. */
  datatype TableAnnotation = TableAnnotation(name: string, pk: string)

  /** A declared field: the qualified and simple names of its declaring
      class, its own name, its @Column annotation, whether it carries
      @Ignore and whether its declared type is String. */
  datatype Field = Field(
    ownerQualifiedName: string,
    ownerSimpleName: string,
    name: string,
    column: Option<ColumnAnnotation>,
    ignoreAnnotated: bool,
    stringTyped: bool)

  datatype ModelClass = ModelClass(
    qualifiedName: string,
    simpleName: string,
    table: Option<TableAnnotation>,
    declaredFields: seq<Field>)

  /** The field values of a model instance, keyed by field name; a field
      that is absent holds null. Reading a field stands for calling its
      getter. */
  type Instance = map<string, Value>

  function ValueOf(model: Instance, field: Field): Option<Value>
  {
    if field.name in model then Some(model[field.name]) else None
  }

  /** A model object whose fields the library writes through setters. */
  class ModelInstance {
    var values: Instance

    constructor (values: Instance)
      ensures this.values == values
    {
      this.values := values;
    }
  }
}
