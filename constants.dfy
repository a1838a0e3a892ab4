/** The `static final` strings of the plugin's `Constants` class. */
module Constants {

  // Separators used in metric keys, lists and diagnostic strings
  const COMMA := ","
  const SLASH := "/"
  const SPACE := " "
  const EMPTY_STRING := ""
  const UNDERSCORE := "_"
  const LEFT_PAREN := "("
  const RIGHT_PAREN := ")"
  const COUNTER := "[counter]"
  const SEPARATOR := "/"

  // Attribute names of a category record
  const SQL := "SQL"
  const RESULT := "result"

  // The liveness probe of a cached connection
  const PING := "SELECT 1 from sysibm.sysdummy1"

  // The JDBC URL prefix, and the mask logged in place of a password
  const JDBC_URL := "jdbc:db2://"
  const PASSWORD_FILTERED := "/PASSWORD_FILTERED"

  // The two result shapes of a category
  const ROW := "row"
  const SET := "set"

  // Textual tokens that the normaliser turns into numbers
  const ON := "ON"
  const OFF := "OFF"
  const TRUE := "TRUE"
  const NONE := "NONE"
  const YES := "YES"
  const NO := "NO"
  const NULL := "NULL"
  // HADR state and connect status tokens
  const DISCONNECTED := "DISCONNECTED"
  const LOCAL_CATCHUP := "LOCAL_CATCHUP"
  const REMOTE_CATCHUP_PENDING := "REMOTE_CATCHUP_PENDING"
  const REMOTE_CATCHUP := "REMOTE_CATCHUP"
  const PEER := "PEER"
  const DISCONNECTED_PEER := "DISCONNECTED_PEER"
  const CONNECTED := "CONNECTED"
  const CONGESTED := "CONGESTED"

  // Their numeric encodings
  const ONE := "1"
  const NEG_ONE := "-1"
  const ZERO := "0"
  const TWO := "2"
  const THREE := "3"
  const FOUR := "4"
  const FIVE := "5"

  const OVERVIEW_CATEGORY := "overview"

  // Unit strings. This DEFAULT_UNIT is the empty string; the metric meta
  // module has its own default unit "Operations".
  const DEFAULT_UNIT := ""
  const STATEMENTS_UNIT := "Statements"
  const ACTIVITIES_UNIT := "Activities"
  const REQUESTS_UNIT := "Requests"
  const TIME_UNIT := "Microseconds"
  const PERCENTAGE_UNIT := "%"
  const TIMES_UNIT := "Times"

  // First-column names that make a `set` result expandable
  const TBSP_COLUMN_NAME := "TBSP_NAME"
  const BP_COLUMN_NAME := "BP_NAME"
  const HADR_COLUMN_NAME := "STANDBY_ID"
}
