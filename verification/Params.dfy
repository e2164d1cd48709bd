/** What several components share, above all the settings of one worker. */
module Params {

  /** How many values the unsigned types of these widths have. */
  const UINT16 := 0x1_0000
  const UINT32 := 0x1_0000_0000

  /** In nanoseconds. */
  const SECOND := 1_000_000_000

  /** What spawning a worker tells the process that comes back from it. */
  datatype RetCode = eMASTER | eCHILD | eERROR

  datatype DbType = eNONE | eMYSQL | ePGSQL

  /** Which database clients the program is compiled with. */
  datatype Build = Build(haveMysql: bool, havePgsql: bool)

  predicate SupportedDb(build: Build, db: DbType) {
    (db.eMYSQL? && build.haveMysql) || (db.ePGSQL? && build.havePgsql)
  }

  datatype InfileType = eSQL | eGENLOG | eBINLOG | eUNKNOWN

  datatype WorkerParams = WorkerParams(
    myName: string,
    dbtype: DbType,
    infiletype: InfileType,
    port: int,
    threads: int,
    queriesPerThread: int,
    queryListMaxsize: int,
    timeoutSecs: int,
    connectTimeoutSecs: int,
    shuffle: bool)
}
