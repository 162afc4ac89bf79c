/** The application entities shared by several screens and services. */
module AppTypes {

  /** The group a configuration entry belongs to. */
  datatype Category = Core | BusinessRule | Security

  /** One entry of the assistant's configuration (`SystemConfigItem`). */
  datatype ConfigItem = ConfigItem(key: string, value: string, description: string, isEditable: bool, category: Category)
}
