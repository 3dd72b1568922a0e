/**
 * The administrator settings record (Options/AdminOptions.cs) and the way the
 * configuration section named "Admin" is bound onto it.
 */
module Options {
  import opened Wrappers

  /** The configuration section the record is bound from. */
  const SectionName: string := "Admin"

  /** Value of Name and Address when the section does not set them (string.Empty). */
  const Unset: string := ""

  /**
   * Email and Password are `required` members, so every value carries both;
   * Name and Address fall back to `Unset`.
   */
  datatype AdminOptions = AdminOptions(email: string, password: string, name: string, address: string)

  /** A configuration section: keys to values. */
  type Section = map<string, string>

  function Lookup(section: Section, key: string): string
  {
    if key in section then section[key] else Unset
  }

  /**
   * Binds the "Admin" section onto the record. A section that lacks a required
   * key yields None: no record exists with a missing Email or Password.
   */
  function Bind(section: Section): (r: Option<AdminOptions>)
    ensures r.Some? <==> "Email" in section && "Password" in section
    ensures r.Some? ==> r.value.email == section["Email"] && r.value.password == section["Password"]
  {
    if "Email" in section && "Password" in section then
      Some(AdminOptions(section["Email"], section["Password"], Lookup(section, "Name"), Lookup(section, "Address")))
    else
      None
  }

  /** The fullest section that describes `o`: the inverse of Bind. */
  function ToSection(o: AdminOptions): Section
  {
    map["Email" := o.email, "Password" := o.password, "Name" := o.name, "Address" := o.address]
  }

  /** Binding the section written from a record gives that record back. */
  lemma BindToSection(o: AdminOptions)
    ensures Bind(ToSection(o)) == Some(o)
  {
  }

  /** A section without a Name or Address key binds to the empty string for it. */
  lemma BindDefaults(section: Section)
    requires Bind(section).Some?
    ensures "Name" !in section ==> Bind(section).value.name == ""
    ensures "Address" !in section ==> Bind(section).value.address == ""
    ensures "Name" in section ==> Bind(section).value.name == section["Name"]
    ensures "Address" in section ==> Bind(section).value.address == section["Address"]
  {
  }
}
