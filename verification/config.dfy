/**
 * The settings the generator reads from its process-wide configuration
 * object, passed explicitly instead of through a global.
 */
module Config {
  datatype Settings = Settings(
    DBTag: string,              // key of the storage tag, e.g. "gorm" or "db"
    WithJsonTag: bool,          // also emit a `json:"<column>"` tag
    TablePrefix: string,        // prepended to the table name in TableName()
    TableRegexs: seq<string>    // name patterns that select tables
  )
}
