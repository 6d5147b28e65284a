/** Records of the user's configuration (core/include/config/config_types.hpp). */
module Config {

  datatype MonitorAlias = MonitorAlias(
    alias: string, output: string, width: int, height: int, rotation: string, enabled: bool)

  datatype MonitorComposeLink = MonitorComposeLink(
    monitor: string, relativeTo: string, side: string, shift: int)

  datatype MonitorCompose = MonitorCompose(
    primary: string, layout: seq<MonitorComposeLink>, defined: bool)

  datatype WorkspaceDef = WorkspaceDef(name: string, monitor: string)
}
