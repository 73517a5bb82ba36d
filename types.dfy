/**
 * The records the console passes between its components: template fields, templates and
 * categories. A template's `fields` are stored as JSON text and parsed on every read; here they
 * are held already parsed.
 */
module Types {

  /** One node of a template's field tree. The source's `type` tag selects the constructor:
      `text`, `number`, `date`, `select` (with `options`, an absent list being the empty one) and
      `group`. A `group` that carries a `fields` list (possibly empty) nests those fields; a
      `group` without one is `GroupWithoutFields` and is rendered like a text field. A field
      whose tag is none of these is rendered like `Text` and is written as `Text`. */
  datatype Field =
    | Text(name: string)
    | Number(name: string)
    | Date(name: string)
    | Select(name: string, options: seq<string>)
    | Group(name: string, fields: seq<Field>)
    | GroupWithoutFields(name: string)

  datatype Template = Template(id: string, name: string, fields: seq<Field>)

  datatype Category = Category(id: string, name: string, templateId: string)
}
