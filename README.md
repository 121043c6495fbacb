# HomeForge core, modelled in Dafny

HomeForge is a home-automation dashboard. It has a Next.js frontend and a
Django REST backend. This project models the logic the dashboard and the
backend apply to their data, and proves properties of that logic:

- **Device builder** (`DeviceBuilder`). The hardware canvas. It checks that
  an MCU exists and that every part is wired to it: the adjacency map and the
  breadth-first search are written as loops. It allows a single MCU and turns an
  MCU's outgoing connection around. It deletes the selection and exports the
  canvas as a hierarchy of parts, once with the program's own check and once
  with the corrected check of the finding below.
- **Stored structure** (`Structure`). The inverse of the export: a device
  type's stored structure is turned back into canvas nodes and parent edges,
  as the two admin pages do.
- **Card composer** (`CardComposer`). Editing a card template's widget list.
  Saving checks that every widget is mapped and every switch is covered. The
  saved controls load back to widgets.
- **Admin review** (`AdminDeviceTypes`, `Approvals`). The status-tagged lists,
  their counts, the selection set for bulk deletion of denied types, and the
  approval queue.
- **Wizards** (`AddDeviceDialog`, `AddDevicePage`). The add-device wizards, with
  their step guards, the initial device state and the payload they submit.
- **Device card** (`SmartDeviceCard`). Merging a control's change into the
  device state. Immediate changes are sent at once; slider changes wait in a
  single pending slot.
- **Debug panel** (`DebugPage`). Switching every boolean toggle on or off,
  and the JSON and status editors.
- **Notifications** (`Notifications`). Rewriting an action URL, the unread
  badge, icons and colours.
- **Sensors** (`SensorWidgets`). The bands of the temperature, humidity,
  motion, light and air-quality widgets, and the widget registry.
- **Topology** (`TopologyCanvas`, `TopologyBuilderNode`, `BuilderStyleNode`,
  `UnifiDeviceNode`). The star layout around the chosen centre node, and the
  spokes from it. The selection kept across refreshes. The keyword
  classification of node kinds, handle placement and icons.
- **Small helpers** (`Breadcrumbs`, `DeviceTypesPage`, `DevicesPage`,
  `IconPicker`, `NavUser`, `ApiClient`). The breadcrumbs. Comma-separated lists
  and the create and edit guards. Grouping devices by room. Icon search. User
  initials. The API client's error messages, avatar URL, profile form and
  login body.
- **Access** (`RegisterPage`, `Validators`, `Permissions`, `AdminLayout`,
  `ProfileView`). The registration password pattern and the backend's
  uppercase validator. The backend role permissions and the admin route gate.
  The profile endpoint's partial update.
- **Monitor** (`MonitorDevices`). The `monitor_devices` command's status for
  each device.

Shared modules:

- `Seqs`: options and sequence helpers.
- `Strings`: ASCII case mapping, JavaScript `trim`, `split` and `join`,
  substring search, and integer text.
- `JsValue`: JavaScript values with truthiness and property lookup.

The code is modelled in its own form:

- Pure transformations are functions with lemmas.
- Loops are methods with invariants, proved against those functions.
- Components that keep mutable state are classes whose methods state their
  new state. These are the add-device page, the device card, the debug panel,
  the topology canvas, and the backend's profile and device rows.

## Model

| member | source | states |
|---|---|---|
| DeviceBuilder.EmptyAdjacency | frontend/app/dashboard/device-builder/page.tsx:171-172 | the map starts with one key per node id, each holding an empty list |
| DeviceBuilder.PushEdge | frontend/app/dashboard/device-builder/page.tsx:173-176 | one edge appends its target to its source's list and then its source to its target's list, only for ids that have a list |
| DeviceBuilder.BuildAdjacency | frontend/app/dashboard/device-builder/page.tsx:171-176 | the keys are exactly the node ids; each list holds, in edge order, the other endpoint of every edge touching that id |
| DeviceBuilder.VisitNeighbours | frontend/app/dashboard/device-builder/page.tsx:185-190 | every neighbour of the current id ends up visited; only new ids are queued, each with a walk from the MCU; only edge endpoints are added |
| DeviceBuilder.SearchRound | frontend/app/dashboard/device-builder/page.tsx:182-191 | one dequeue and its neighbour scan keep the search invariant and either visit something new or shorten the queue |
| DeviceBuilder.SearchDone | frontend/app/dashboard/device-builder/page.tsx:182-191 | when the queue is empty the visited set is closed under neighbours, so it is exactly the set reachable from the root |
| DeviceBuilder.Search | frontend/app/dashboard/device-builder/page.tsx:178-191 | the breadth-first search ends, and its visited set is exactly the ids reachable from the MCU over edges taken in either direction |
| DeviceBuilder.ValidateGraphAsWritten | frontend/app/dashboard/device-builder/page.tsx:164-198 | the result is the source's check: "Canvas is empty" for no nodes, the MCU error with no mcu node, otherwise a comparison of the visited set's size with the node count |
| DeviceBuilder.ValidateGraph | frontend/app/dashboard/device-builder/page.tsx:164-198 | the corrected check: the same two errors first, then valid exactly when every node is reachable from the first MCU |
| DeviceBuilder.ValidationsAgreeOnWellFormed | frontend/app/dashboard/device-builder/page.tsx:171-197 | with distinct node ids and every edge endpoint a node, the source's size comparison gives the same verdict as "every node is reachable", in both directions |
| DeviceBuilder.AddEdgeKeepsValid | frontend/app/dashboard/device-builder/page.tsx:171-197 | for the corrected check: adding any edge to a valid canvas keeps it valid (the source's count comparison can reject the larger canvas) |
| DeviceBuilder.LoneMcuValid | frontend/app/dashboard/device-builder/page.tsx:164-198 | for the corrected check: a canvas with one MCU node is valid, whatever edges remain (the source's count comparison rejects it when an edge leads to a deleted node) |
| DeviceBuilder.AsWrittenAcceptsDisconnectedCanvas | frontend/app/dashboard/device-builder/page.tsx:193-195 | a concrete canvas with an edge to a deleted MCU passes the source's check although the relay node is not connected to the MCU |
| DeviceBuilder.FindSensor | frontend/app/dashboard/device-builder/page.tsx:62-70 | the palette entry for a type is found exactly when the palette lists that type |
| DeviceBuilder.McuCountZero | frontend/app/dashboard/device-builder/page.tsx:355 | there is no MCU on the canvas exactly when the number of MCU nodes is zero |
| DeviceBuilder.HandleAddNode | frontend/app/dashboard/device-builder/page.tsx:352-390 | a second MCU or an unknown type leaves the nodes unchanged; otherwise exactly one node with id `<type>-<time>` and the palette label is appended; there is never a second MCU |
| DeviceBuilder.OnDrop | frontend/app/dashboard/device-builder/page.tsx:405-472 | the type comes from the drag data, else from the remembered type; with no type nothing changes; the same guard as tapping; the remembered type is cleared only when a node was added |
| DeviceBuilder.TouchEnd | frontend/app/dashboard/device-builder/page.tsx:240-291 | with no remembered type nothing changes; a tap only forgets the type; a drag adds under the single-MCU guard and forgets the type either way |
| DeviceBuilder.AddEdge | frontend/app/dashboard/device-builder/page.tsx:342-347 | a connection with both endpoints whose source and target are not yet joined is appended under the id `reactflow__edge-<source>-<target>`; any other leaves the edges as they are |
| DeviceBuilder.ConnectionDirection | frontend/app/dashboard/device-builder/page.tsx:309-340 | a connection from an MCU to anything that is not an MCU is turned round; every other connection is kept as given; the chosen source is an MCU only when the target is one too |
| DeviceBuilder.DirectionIsStable | frontend/app/dashboard/device-builder/page.tsx:309-340 | choosing the direction again for the chosen direction keeps it |
| DeviceBuilder.OnConnect | frontend/app/dashboard/device-builder/page.tsx:299-349 | the edge for the turned-round connection is appended exactly when the flow library's helper accepts it, and otherwise nothing changes; the new edge never leads from an MCU to a non-MCU; no source/target pair appears twice |
| DeviceBuilder.DragDirectionIrrelevant | frontend/app/dashboard/device-builder/page.tsx:309-347 | between an MCU and a node that is not one, dragging from either end gives the same edges |
| DeviceBuilder.DeleteSelected | frontend/app/dashboard/device-builder/page.tsx:500-503 | exactly the unselected nodes and the unselected edges remain, each in their original order |
| DeviceBuilder.ClearCanvas | frontend/app/dashboard/device-builder/page.tsx:505-510 | a confirmed clear empties both lists; a refused one changes nothing |
| DeviceBuilder.ChildrenIds | frontend/app/dashboard/device-builder/page.tsx:206-210 | a node's children are, in edge order, the targets of its outgoing edges that are nodes of the canvas |
| DeviceBuilder.NodeShape | frontend/app/dashboard/device-builder/page.tsx:205-219 | an exported node carries the canvas node's id, type, label and position, and the `children` key is present exactly when it has children |
| DeviceBuilder.ForestIds | frontend/app/dashboard/device-builder/page.tsx:221 | the list of built trees has one tree per given node, with the same id, in order |
| DeviceBuilder.HierarchyRoots | frontend/app/dashboard/device-builder/page.tsx:202-203 | the export's top level holds exactly the nodes that are no edge's target, in canvas order |
| DeviceBuilder.BuildNodeFinishes | frontend/app/dashboard/device-builder/page.tsx:205-219 | when the edges decrease a rank, the recursion finishes once the depth allowance exceeds the node's rank |
| DeviceBuilder.CycleNeverFinishes | frontend/app/dashboard/device-builder/page.tsx:205-219 | from either node of a pair joined both ways the recursion never finishes, whatever the depth allowance |
| DeviceBuilder.ReverseEdges | frontend/app/dashboard/device-builder/page.tsx:486 | every edge keeps its position and has its source and target swapped |
| DeviceBuilder.ExportRoots | frontend/app/dashboard/device-builder/page.tsx:202-203 | after the reversal the roots are exactly the nodes that are the source of no canvas edge |
| DeviceBuilder.CyclicCanvasExportsNothing | frontend/app/dashboard/device-builder/page.tsx:475-487 | a canvas that passes both the source's check and the corrected one but has two sensors joined both ways has an export that never finishes |
| DeviceBuilder.StrayCanvasExportDropsRelay | frontend/app/dashboard/device-builder/page.tsx:475-488 | the canvas of the finding passes the source's check and its export finishes, saving the new MCU with the temperature sensor under it and no relay |
| DeviceBuilder.HandleExport | frontend/app/dashboard/device-builder/page.tsx:475-498 | a canvas the source's check rejects exports nothing; one it accepts exports the hierarchy of the reversed edges under the device name and the saving time |
| DeviceBuilder.HandleExportCorrected | frontend/app/dashboard/device-builder/page.tsx:475-498 | the same export with the corrected check: a canvas with a node cut off from the MCU exports nothing |
| Structure.StructureNodes | frontend/app/dashboard/admin/device-types/page.tsx:102-117 | one node per entry, in entry order, with the entry's id, type and label, and position (0,0) when the entry has none |
| Structure.ParentEdgeSource | frontend/app/dashboard/admin/device-types/page.tsx:119-129 | every reconstructed edge is the `e-<id>-<parentId>` edge, from node to parent, of an entry with a truthy parent id |
| Structure.ParentEdgeOf | frontend/app/dashboard/admin/device-types/page.tsx:119-129 | every entry with a truthy parent id has its edge among the reconstructed edges |
| Structure.ReconstructGraph | frontend/app/dashboard/admin/device-types/page.tsx:96-132 | a structure that is not an array gives no nodes and no edges; otherwise the loop yields the entry nodes and the parent edges above |
| Structure.EdgesLeaveNodes | frontend/app/dashboard/admin/device-types/page.tsx:96-132 | every reconstructed edge starts at a reconstructed node |
| Structure.EdgesEnterNodes | frontend/app/dashboard/admin/device-types/page.tsx:96-132 | when every parent id names an entry, every reconstructed edge also ends at a node |
| Structure.ReconstructedWellFormed | frontend/app/dashboard/admin/approvals/page.tsx:71-108 | with distinct entry ids and parents that name entries, the reconstructed graph has no dangling edge, and both readings of the builder's validation agree on it |
| CardComposer.ConvertControlsToWidgets | frontend/app/dashboard/device-builder/DeviceUICreator.tsx:80-93 | one widget per control, in order, with the same type, label and mapping; a slider's missing min, max and step become 0, 100 and 1 |
| CardComposer.InitialWidgets | frontend/app/dashboard/device-builder/DeviceUICreator.tsx:96-102 | without stored controls the list starts empty; otherwise it is the stored controls converted, one widget per control |
| CardComposer.MappableNodes | frontend/app/dashboard/device-builder/DeviceUICreator.tsx:107 | exactly the nodes that are not of type mcu, in canvas order |
| CardComposer.AddWidget | frontend/app/dashboard/device-builder/DeviceUICreator.tsx:75-122 | exactly one widget is appended and the old ones are kept; it is unmapped, a toggle is labelled Power, a slider Level with range 0 to 100 in steps of 1 |
| CardComposer.UpdateWidget | frontend/app/dashboard/device-builder/DeviceUICreator.tsx:124-126 | widgets with another id are unchanged; those with the id get the update merged in |
| CardComposer.RemoveWidget | frontend/app/dashboard/device-builder/DeviceUICreator.tsx:128-131 | exactly the widgets with another id remain, in order; the selection is cleared only when it was the removed widget |
| CardComposer.ToControls | frontend/app/dashboard/device-builder/DeviceUICreator.tsx:153-162 | one control per widget, in order; only slider controls carry min, max and step |
| CardComposer.MissingOutputs | frontend/app/dashboard/device-builder/DeviceUICreator.tsx:140-142 | exactly the switch nodes that no widget is mapped to |
| CardComposer.HandleSave | frontend/app/dashboard/device-builder/DeviceUICreator.tsx:133-165 | an unmapped widget gives the unmapped error; the template is saved exactly when every widget is mapped and every switch node is some widget's mapping; the layout is 2 wide and one row per widget |
| CardComposer.ConvertRoundTrip | frontend/app/dashboard/device-builder/DeviceUICreator.tsx:80-162 | loading well-formed controls and saving them again gives back the same controls |
| CardComposer.SaveLoadSave | frontend/app/dashboard/device-builder/DeviceUICreator.tsx:80-162 | saving, loading what was saved and saving again stores the same controls |
| CardComposer.SameMappingsSameVerdict | frontend/app/dashboard/device-builder/DeviceUICreator.tsx:133-149 | two widget lists with the same mappings, position by position, get the same verdict |
| CardComposer.LoadedTemplateSavesAgain | frontend/app/dashboard/device-builder/DeviceUICreator.tsx:96-165 | a saved template, loaded back, saves again with the same result |
| AdminDeviceTypes.Tag | frontend/app/dashboard/admin/device-types/page.tsx:215-217 | every entry of a list, in order, with the list's status attached |
| AdminDeviceTypes.AllTypes | frontend/app/dashboard/admin/device-types/page.tsx:214-223 | the "all" filter yields approved, then pending, then denied, each tagged; a status filter yields entries of that status only |
| AdminDeviceTypes.FilterByStatus | frontend/app/dashboard/admin/device-types/page.tsx:214-223 | a status filter yields exactly that status's list, tagged, in order |
| AdminDeviceTypes.GetCounts | frontend/app/dashboard/admin/device-types/page.tsx:226-231 | each badge equals the length of what its filter lists, and the "all" badge is the sum of the other three |
| AdminDeviceTypes.HandleSelect | frontend/app/dashboard/admin/device-types/page.tsx:364-376 | the item is reviewed with its name ready for editing, and its graph is the reconstructed structure, empty when there is none |
| AdminDeviceTypes.AutoSelect | frontend/app/dashboard/admin/device-types/page.tsx:241-266 | an empty list clears the review; a reviewed item still listed (same id and status) is kept; otherwise the first listed item is reviewed |
| AdminDeviceTypes.Remove | frontend/app/dashboard/admin/device-types/page.tsx:384 | deleting an id from the selection removes exactly that id and keeps the others in insertion order |
| AdminDeviceTypes.ToggleSelect | frontend/app/dashboard/admin/device-types/page.tsx:378-388 | after the toggle the id is selected exactly when it was checked; no other id changes; no id is held twice |
| AdminDeviceTypes.Dedup | frontend/app/dashboard/admin/device-types/page.tsx:395 | a set built from a list holds exactly the list's ids, each once |
| AdminDeviceTypes.SelectAllDenied | frontend/app/dashboard/admin/device-types/page.tsx:390-397 | when the selection's size equals the denied count it is cleared; otherwise it becomes exactly the denied ids |
| AdminDeviceTypes.SelectedDeniedCount | frontend/app/dashboard/admin/device-types/page.tsx:436-438 | the number of selected ids that are ids of denied types; it is 0 exactly when none is, and the selection's size exactly when all are |
| AdminDeviceTypes.SelectAllTwice | frontend/app/dashboard/admin/device-types/page.tsx:390-397 | with distinct denied ids, "select all" selects every denied type and pressing it again clears the selection |
| AdminDeviceTypes.HandleApprove | frontend/app/dashboard/admin/device-types/page.tsx:271-405 | nothing without a reviewed item; otherwise the approve call comes last, preceded by a rename exactly when the edited name is non-empty and differs from the current name |
| AdminDeviceTypes.HandleDeny | frontend/app/dashboard/admin/device-types/page.tsx:407-410 | the deny call is made exactly when an item is reviewed and the reason is non-empty |
| AdminDeviceTypes.HandleDelete | frontend/app/dashboard/admin/device-types/page.tsx:412-419 | the denied-type delete call is used exactly for denied items, the ordinary delete for the rest |
| AdminDeviceTypes.HandleBulkDelete | frontend/app/dashboard/admin/device-types/page.tsx:421-424 | the bulk delete sends the selected ids, and nothing is sent exactly when none is selected |
| AdminDeviceTypes.DenyEnabled | frontend/app/dashboard/admin/device-types/page.tsx:873 | the deny button is enabled exactly when the reason is not white space only and no request is under way |
| Approvals.HandleSelect | frontend/app/dashboard/admin/approvals/page.tsx:149-159 | the item is reviewed with its reconstructed graph; an item without a structure shows an empty graph; the list is unchanged |
| Approvals.LoadPending | frontend/app/dashboard/admin/approvals/page.tsx:125-143 | the list becomes the loaded one; the first item is reviewed only when nothing was; an empty list clears the review |
| Approvals.HandleRemoveFromList | frontend/app/dashboard/admin/approvals/page.tsx:185-193 | every entry with the id leaves, the rest keep their order, and the first remaining entry is reviewed, or nothing when none remains |
| Approvals.HandleApprove | frontend/app/dashboard/admin/approvals/page.tsx:161-170 | the approve call is made for the reviewed item, which leaves the list only when the call succeeds |
| Approvals.HandleDeny | frontend/app/dashboard/admin/approvals/page.tsx:172-183 | without a reviewed item or with an empty reason no call is made and nothing changes; otherwise the item leaves the list when the call succeeds |
| Approvals.DecidedItemLeaves | frontend/app/dashboard/admin/approvals/page.tsx:161-193 | after a successful decision the item's id is no longer listed and the list is shorter |
| AddDeviceDialog.ApprovedTypes | frontend/components/devices/AddDeviceDialog.tsx:61 | exactly the types with a truthy `approved`, in their order |
| AddDeviceDialog.InitialValue | frontend/components/devices/AddDeviceDialog.tsx:98-112 | switch and motion components start at false, every other component at 0 |
| AddDeviceDialog.InitialStateKeys | frontend/components/devices/AddDeviceDialog.tsx:91-117 | the state's keys are exactly the ids of the components that are not the MCU, and every value is false or 0 |
| AddDeviceDialog.InitialStateValues | frontend/components/devices/AddDeviceDialog.tsx:96-113 | with distinct ids, each non-MCU component starts at the value for its type |
| AddDeviceDialog.GenerateInitialState | frontend/components/devices/AddDeviceDialog.tsx:91-117 | a missing structure gives the empty state; otherwise the loop's state is the initial state of the structure |
| AddDeviceDialog.HandleNext | frontend/components/devices/AddDeviceDialog.tsx:76-86 | step 1 without a type and step 2 without a room stay put with their error; otherwise the step goes up by one |
| AddDeviceDialog.HandleBack | frontend/components/devices/AddDeviceDialog.tsx:88 | the step goes down by one and nothing else changes |
| AddDeviceDialog.SetOpen | frontend/components/devices/AddDeviceDialog.tsx:54-74 | closing returns to step 1 with an empty form; opening keeps both |
| AddDeviceDialog.ButtonsKeepStepInRange | frontend/components/devices/AddDeviceDialog.tsx:272-283 | with Back disabled on step 1 and Next shown below step 3, the buttons keep the wizard on steps 1 to 3 |
| AddDeviceDialog.HandleSubmit | frontend/components/devices/AddDeviceDialog.tsx:120-145 | nothing is registered exactly when the name is empty; the payload carries the form's fields with type and room parsed as integers, and the selected type's initial state, `{}` when no offered type matches |
| AddDevicePage.RegisterForm.constructor | frontend/app/dashboard/devices/add/page.tsx:15-29 | the form starts on step 1 with every field empty |
| AddDevicePage.RegisterForm.LoadTypes | frontend/app/dashboard/devices/add/page.tsx:43 | exactly the approved types are kept, in order |
| AddDevicePage.RegisterForm.SetFields | frontend/app/dashboard/devices/add/page.tsx:112-184 | the four form fields take the entered values |
| AddDevicePage.RegisterForm.HandleNext | frontend/app/dashboard/devices/add/page.tsx:55-65 | step 1 without a type and step 2 without a room keep the step with their error; otherwise the step goes up by one and stays within 1 to 3 when Next was shown |
| AddDevicePage.RegisterForm.HandleBack | frontend/app/dashboard/devices/add/page.tsx:67-199 | the step goes down by one, and stays within 1 to 3 when Back was shown |
| AddDevicePage.RegisterForm.HandleSubmit | frontend/app/dashboard/devices/add/page.tsx:69-82 | no payload exactly when the name is empty; otherwise the name, the type and room parsed as integers, and the address |
| SmartDeviceCard.Merge | frontend/components/devices/SmartDeviceCard.tsx:80 | the variable takes the new value, one key is added at most, and every other key keeps its value |
| SmartDeviceCard.Card.constructor | frontend/components/devices/SmartDeviceCard.tsx:28 | the card starts from the device's state object, `{}` when there is none, with nothing pending and nothing sent |
| SmartDeviceCard.Card.HandleStateChange | frontend/components/devices/SmartDeviceCard.tsx:78-96 | the local state always takes the merge; read-only sends nothing; an immediate change cancels the pending update and sends the new state; any other change replaces the pending update with the new state |
| SmartDeviceCard.Card.TimerFires | frontend/components/devices/SmartDeviceCard.tsx:91-94 | the pending update, if any, is sent once and the slot is emptied |
| SmartDeviceCard.Card.Unmount | frontend/components/devices/SmartDeviceCard.tsx:62-66 | unmounting clears the pending update |
| SmartDeviceCard.RenderWidget | frontend/components/devices/SmartDeviceCard.tsx:115-152 | a toggle is on exactly when its variable is truthy; a slider's bounds and step default to 0, 100 and 1 and it shows its minimum while the value is not a number; other types render nothing |
| SmartDeviceCard.ToggleShowsChange | frontend/components/devices/SmartDeviceCard.tsx:119-123 | switching a toggle shows it in the new position |
| SmartDeviceCard.SliderShowsChange | frontend/components/devices/SmartDeviceCard.tsx:128-145 | moving a slider shows the new number |
| DebugPage.Toggled | frontend/app/dashboard/admin/debug/page.tsx:150-158 | the keys and their order are kept; every boolean value becomes the chosen value and every other value is kept |
| DebugPage.SetToggles | frontend/app/dashboard/admin/debug/page.tsx:153-157 | the loop over the keys computes the toggled entries |
| DebugPage.ToggledKeepsKeys | frontend/app/dashboard/admin/debug/page.tsx:150-174 | both buttons keep the key set |
| DebugPage.ToggledIdempotent | frontend/app/dashboard/admin/debug/page.tsx:150-174 | pressing either button twice is the same as pressing it once |
| DebugPage.OffAfterOn | frontend/app/dashboard/admin/debug/page.tsx:150-174 | "off" after "on" is the same as "off" alone |
| DebugPage.DevicePanel.constructor | frontend/app/dashboard/admin/debug/page.tsx:63-66 | the panel starts with the device's state as text, marked valid, and the device's status chosen |
| DebugPage.DevicePanel.HandleJsonChange | frontend/app/dashboard/admin/debug/page.tsx:127-135 | the text is stored and marked valid exactly when it parses |
| DebugPage.DevicePanel.HandleSaveState | frontend/app/dashboard/admin/debug/page.tsx:137-148 | nothing is sent when the text is marked invalid or does not parse; otherwise the parsed value is sent |
| DebugPage.DevicePanel.SetAllToggles | frontend/app/dashboard/admin/debug/page.tsx:150-180 | text that does not parse changes nothing; otherwise the toggled copy is shown as text and sent |
| DebugPage.DevicePanel.HandleStatusChange | frontend/app/dashboard/admin/debug/page.tsx:119-121 | the chosen status becomes the given one, and Save Status is then enabled exactly when it differs from the device's status |
| DebugPage.DevicePanel.SaveStatusEnabled | frontend/app/dashboard/admin/debug/page.tsx:246 | Save Status is disabled while the choice equals the device's status or the update is under way, and enabled otherwise |
| Notifications.StripTrailingSlashes | frontend/components/notifications/notification-center.tsx:65 | the result is a prefix of the URL that does not end in '/', and only slashes were removed |
| Notifications.GetActionUrl | frontend/components/notifications/notification-center.tsx:63-81 | a URL with `/admin/device-types/<digits>` anywhere goes to the pending list; any other URL is prefixed with `/dashboard` unless it already starts with `/dashboard` or `http`; the `/admin/` branch agrees with that rule; the result is always inside the dashboard or external |
| Notifications.PrefixAddsNoMatch | frontend/components/notifications/notification-center.tsx:70-80 | putting `/dashboard` in front of a URL without an item match creates none |
| Notifications.ActionUrlNoTrailingSlash | frontend/components/notifications/notification-center.tsx:63-81 | a rewritten route is non-empty and never ends in '/' |
| Notifications.ActionUrlIdempotent | frontend/components/notifications/notification-center.tsx:63-81 | rewriting a rewritten route changes nothing |
| Notifications.UnreadBadge | frontend/components/notifications/notification-center.tsx:286-292 | the badge shows exactly when there are unread notifications; above nine it reads "9+", otherwise the single digit |
| Notifications.IconOf | frontend/components/notifications/notification-center.tsx:83-125 | unknown notification types fall back to the Info icon |
| Notifications.ColourOf | frontend/components/notifications/notification-center.tsx:96-126 | unknown notification types fall back to blue |
| Notifications.ClickMarksRead | frontend/components/notifications/notification-center.tsx:134 | a click marks the notification read exactly when it is unread |
| SensorWidgets.NumberOr | frontend/components/devices/SensorWidgets.tsx:39-239 | a number is read as itself, anything else as the widget's fallback |
| SensorWidgets.TemperatureBandOf | frontend/components/devices/SensorWidgets.tsx:39-45 | cold exactly below 15, hot exactly above 30, comfortable otherwise; a non-number reads as 0 |
| SensorWidgets.TemperatureMonotone | frontend/components/devices/SensorWidgets.tsx:39-45 | a higher temperature never shows a colder band |
| SensorWidgets.HumidityBandOf | frontend/components/devices/SensorWidgets.tsx:87-93 | low exactly below 30, high exactly above 70, normal otherwise; a non-number reads as 0 |
| SensorWidgets.MotionStatus | frontend/components/devices/SensorWidgets.tsx:134-151 | "Active" exactly when the value is truthy, "Clear" otherwise |
| SensorWidgets.LightOn | frontend/components/devices/SensorWidgets.tsx:183-184 | a boolean is the state itself, a number is on exactly above 100, anything else is off |
| SensorWidgets.Lux | frontend/components/devices/SensorWidgets.tsx:185 | the number itself, else 500 for a truthy value and 0 for a falsy one |
| SensorWidgets.LightLabel | frontend/components/devices/SensorWidgets.tsx:195-196 | a boolean shows as Bright or Dark; other values show no word |
| SensorWidgets.BooleanLightAgrees | frontend/components/devices/SensorWidgets.tsx:183-185 | a boolean light shown on reports 500 lux and one shown off reports 0 |
| SensorWidgets.AirQualityOf | frontend/components/devices/SensorWidgets.tsx:239-247 | five bands cut at 600, 1000, 1500 and 2500 ppm; a non-number reads as 400, the best band |
| SensorWidgets.AirQualityMonotone | frontend/components/devices/SensorWidgets.tsx:239-247 | more CO2 never shows a better band |
| SensorWidgets.WidgetFor | frontend/components/devices/SensorWidgets.tsx:284-290 | exactly TEMPERATURE, HUMIDITY, MOTION, LIGHT and CO2 have a widget |
| SensorWidgets.RegistryInjective | frontend/components/devices/SensorWidgets.tsx:284-290 | no two keys share a widget |
| TopologyCanvas.CentreId | frontend/components/topology/TopologyCanvas.tsx:47-50 | the centre's id is the id of one of the input nodes |
| TopologyCanvas.CentreChoice | frontend/components/topology/TopologyCanvas.tsx:47-50 | the centre is the first `input` node or node whose id contains "gateway" in any case; with none (or an empty id) it is the first node |
| TopologyCanvas.HomeforgeGatewayMentionsGateway | frontend/components/topology/TopologyCanvas.tsx:47 | the literal `homeforge-gateway` test is covered by the "gateway" test |
| TopologyCanvas.SatelliteColumn | frontend/components/topology/TopologyCanvas.tsx:77-85 | neighbouring devices are 180 apart and the column is symmetric about the gateway's y = 0 |
| TopologyCanvas.Satellites | frontend/components/topology/TopologyCanvas.tsx:54 | exactly the nodes whose id is not the centre's |
| TopologyCanvas.SatellitesInOrder | frontend/components/topology/TopologyCanvas.tsx:54 | the devices keep their input order |
| TopologyCanvas.Stroke | frontend/components/topology/TopologyCanvas.tsx:95-96 | green for an online device, red for status 'offline', grey otherwise |
| TopologyCanvas.Spokes | frontend/components/topology/TopologyCanvas.tsx:98-110 | one edge per device, in order, from the centre with id `edge-<centre>-<device>` |
| TopologyCanvas.Column | frontend/components/topology/TopologyCanvas.tsx:80-92 | one placed node per device, in order, at its place in the column |
| TopologyCanvas.LayoutEdges | frontend/components/topology/TopologyCanvas.tsx:95-110 | no edge when the centre's id is empty; otherwise one edge per device from the centre, animated exactly when the device is online |
| TopologyCanvas.CentrePlaced | frontend/components/topology/TopologyCanvas.tsx:53-73 | the centre node is found among the inputs and placed first, then the column |
| TopologyCanvas.LayoutShape | frontend/components/topology/TopologyCanvas.tsx:58-92 | the centre sits at (0,0) as the gateway with its label or 'Gateway'; each device follows in input order at x = 450 and y = 90 - 90n + 180i |
| TopologyCanvas.LayoutKeepsIds | frontend/components/topology/TopologyCanvas.tsx:31-90 | exactly the input ids are laid out, and a node is selected exactly when its id was recorded |
| TopologyCanvas.PushDevices | frontend/components/topology/TopologyCanvas.tsx:80-111 | the loop over the devices pushes the column and, when the centre has an id, the spokes |
| TopologyCanvas.Place | frontend/components/topology/TopologyCanvas.tsx:42-114 | the refresh lays out the centre and the column and builds the spokes |
| TopologyCanvas.Canvas.constructor | frontend/components/topology/TopologyCanvas.tsx:22-27 | the canvas starts with no nodes, no edges and no recorded selection |
| TopologyCanvas.Canvas.RecordSelection | frontend/components/topology/TopologyCanvas.tsx:30-40 | the recorded set is rebuilt from the selected nodes, and kept when there are no nodes |
| TopologyCanvas.Canvas.NodesChanged | frontend/components/topology/TopologyCanvas.tsx:30-40 | the nodes take the change and the selection effect follows |
| TopologyCanvas.Canvas.Refresh | frontend/components/topology/TopologyCanvas.tsx:42-117 | an empty input changes nothing; otherwise the layout above is shown and every recorded id still present stays selected |
| TopologyBuilderNode.FirstMatch | frontend/components/topology/nodes/TopologyBuilderNode.tsx:63-76 | the configuration of the first rule from the given index on whose keyword occurs, or the default when none applies |
| TopologyBuilderNode.RulesInOrder | frontend/components/topology/nodes/TopologyBuilderNode.tsx:63-74 | the rule table lists, in the source's order, exactly the keyword tests of the if-chain |
| TopologyBuilderNode.ResolveType | frontend/components/topology/nodes/TopologyBuilderNode.tsx:57-77 | the gateway style is chosen exactly when the lowercased type or id contains "gateway" or the type is `input`; the thermostat, humidity, laptop and desktop entries are never chosen |
| TopologyBuilderNode.KeywordType | frontend/components/topology/nodes/TopologyBuilderNode.tsx:63-68 | the keyword tests up to the access-point test never give the gateway style nor one of the unused entries |
| TopologyBuilderNode.LaterKeywordType | frontend/components/topology/nodes/TopologyBuilderNode.tsx:69-76 | the tests from the router test on never give the gateway style nor one of the unused entries |
| TopologyBuilderNode.LaterAgreesWithTable | frontend/components/topology/nodes/TopologyBuilderNode.tsx:69-76 | the later tests are the first-match reading of the table from its seventh rule |
| TopologyBuilderNode.KeywordFromFourth | frontend/components/topology/nodes/TopologyBuilderNode.tsx:66-76 | past the first three rules, the tests are the first-match reading from the fourth rule |
| TopologyBuilderNode.KeywordAgreesWithTable | frontend/components/topology/nodes/TopologyBuilderNode.tsx:63-76 | the keyword tests are the first-match reading of the whole table |
| TopologyBuilderNode.ResolveAgreesWithTable | frontend/components/topology/nodes/TopologyBuilderNode.tsx:57-77 | past the gateway test, `resolveType` returns the first rule, in order, whose keyword occurs in the lowercased type, or the default |
| TopologyBuilderNode.LaptopIsAccessPoint | frontend/components/topology/nodes/TopologyBuilderNode.tsx:66-70 | a type mentioning "laptop" gets the access-point style or an earlier one, never the computer style, because "laptop" contains "ap" |
| TopologyBuilderNode.HumidAndTempAreSensors | frontend/components/topology/nodes/TopologyBuilderNode.tsx:67 | a type mentioning "humid" or "temp" gets the sensor style or an earlier one |
| TopologyBuilderNode.ClassifiedType | frontend/components/topology/nodes/TopologyBuilderNode.tsx:57-80 | the type is `device_type || type` when that is a string and '' when it is undefined; any other value makes the render throw |
| TopologyBuilderNode.NullTypeThrows | frontend/components/topology/nodes/TopologyBuilderNode.tsx:57-80 | a node with no device type and a `null` type cannot be drawn |
| TopologyBuilderNode.IsRoot | frontend/components/topology/nodes/TopologyBuilderNode.tsx:87 | an `input` node and a node whose id mentions gateway in any case are roots; without a string device type nothing else is |
| TopologyBuilderNode.IsOnline | frontend/components/topology/nodes/TopologyBuilderNode.tsx:90 | only the status "online" or an `is_online` of `true` counts; a numeric flag does not |
| TopologyBuilderNode.CapitalGatewayStyledButNotRoot | frontend/components/topology/nodes/TopologyBuilderNode.tsx:57-87 | a device type "Gateway" gets the gateway style but the handle of a node that is not the root |
| TopologyBuilderNode.Handles | frontend/components/topology/nodes/TopologyBuilderNode.tsx:87-129 | a root has only the source handle and any other node only the target handle |
| TopologyBuilderNode.Label | frontend/components/topology/nodes/TopologyBuilderNode.tsx:160 | the name, else the label, else the id |
| TopologyBuilderNode.ContainsLowered | frontend/components/topology/nodes/TopologyBuilderNode.tsx:59-62 | lowercasing keeps an occurrence of a lowercase word |
| TopologyBuilderNode.RootHasGatewayStyle | frontend/components/topology/nodes/TopologyBuilderNode.tsx:80-87 | a root that can be drawn is drawn in the gateway style, except an `input` node whose truthy device type decides instead; a root by its type or device type can always be drawn |
| BuilderStyleNode.ResolveVariant | frontend/components/topology/nodes/BuilderStyleNode.tsx:44-60 | the gateway style exactly under the same gateway test; no type gets the tablet, printer, IoT, thermostat, humidity, laptop or desktop style |
| BuilderStyleNode.VariantRulesInOrder | frontend/components/topology/nodes/BuilderStyleNode.tsx:49-57 | this variant's table lists its if-chain's tests in order, with "mac" in the computer rule and nothing after the mobile rule |
| BuilderStyleNode.VariantAgreesWithTable | frontend/components/topology/nodes/BuilderStyleNode.tsx:44-60 | past the gateway test the variant is the first-match reading of its table |
| BuilderStyleNode.VariantAgreesOnSharedRules | frontend/components/topology/nodes/BuilderStyleNode.tsx:44-60 | wherever the topology node decides by one of the shared rules, the variant chooses the same style |
| BuilderStyleNode.NoTabletPrinterIotRules | frontend/components/topology/nodes/BuilderStyleNode.tsx:56-60 | where the topology node picks tablet, printer or IoT, the variant gives the default, or the computer style when the type mentions "mac" |
| BuilderStyleNode.LaptopIsAccessPointToo | frontend/components/topology/nodes/BuilderStyleNode.tsx:54-56 | a laptop gets the access-point style or an earlier one here too |
| BuilderStyleNode.HandlesShown | frontend/components/topology/nodes/BuilderStyleNode.tsx:80-140 | the source handle shows exactly when the node is selected or is some edge's source; the target handle likewise for targets |
| BuilderStyleNode.HandlesMonotone | frontend/components/topology/nodes/BuilderStyleNode.tsx:80-84 | adding an edge never hides a handle |
| BuilderStyleNode.VariantLabel | frontend/components/topology/nodes/BuilderStyleNode.tsx:125 | the label, else the id |
| UnifiDeviceNode.IconMap | frontend/components/topology/nodes/UnifiDeviceNode.tsx:19-32 | exactly the twelve listed device types have an icon |
| UnifiDeviceNode.LowerName | frontend/components/topology/nodes/UnifiDeviceNode.tsx:39 | a missing or falsy name reads as "", a string name is lowercased |
| UnifiDeviceNode.IconFromName | frontend/components/topology/nodes/UnifiDeviceNode.tsx:40-45 | each icon is chosen exactly when one of its words occurs and no earlier test applies; a phone is the default |
| UnifiDeviceNode.IconFor | frontend/components/topology/nodes/UnifiDeviceNode.tsx:36-46 | a device type in the table decides the icon; otherwise the name does |
| UnifiDeviceNode.DeviceTypeDecides | frontend/components/topology/nodes/UnifiDeviceNode.tsx:36-37 | with a known device type the name makes no difference |
| UnifiDeviceNode.IphoneIsPhone | frontend/components/topology/nodes/UnifiDeviceNode.tsx:42 | a name containing "iphone" contains "phone" |
| UnifiDeviceNode.NamelessIsSmartphone | frontend/components/topology/nodes/UnifiDeviceNode.tsx:39-45 | a device with no name and no known type shows a phone |
| UnifiDeviceNode.IconLook | frontend/components/topology/nodes/UnifiDeviceNode.tsx:48-78 | a device with a truthy `is_online` glows and any other is dimmed and greyscale, never both |
| Breadcrumbs.Segments | frontend/components/dynamic-breadcrumbs.tsx:16 | the segments are the non-empty pieces of the path between slashes; none is empty or holds a slash |
| Breadcrumbs.RepeatedSlash | frontend/components/dynamic-breadcrumbs.tsx:16 | a doubled slash gives the same segments as a single one |
| Breadcrumbs.TrailingSlash | frontend/components/dynamic-breadcrumbs.tsx:16 | a trailing slash adds no segment |
| Breadcrumbs.SegmentsOfHref | frontend/components/dynamic-breadcrumbs.tsx:16-27 | the canonical path built from well-formed segments splits back into exactly those segments |
| Breadcrumbs.Href | frontend/components/dynamic-breadcrumbs.tsx:27 | every crumb link is an absolute path (starts with a slash) |
| Breadcrumbs.HrefExtends | frontend/components/dynamic-breadcrumbs.tsx:27 | each crumb's link is the previous one's plus a slash and the next segment, so it extends it |
| Breadcrumbs.HrefSegments | frontend/components/dynamic-breadcrumbs.tsx:16-27 | the link of crumb i, read back as a path, names exactly the first i+1 segments |
| Breadcrumbs.Title | frontend/components/dynamic-breadcrumbs.tsx:28 | the title has the segment's length, its first character upper-cased and every later dash made a space, so no later dash remains |
| Breadcrumbs.Crumbs | frontend/components/dynamic-breadcrumbs.tsx:16-39 | the crumbs are the fixed HomeForge root linking to / followed by one crumb per segment |
| Breadcrumbs.OnlyLastIsPage | frontend/components/dynamic-breadcrumbs.tsx:21-39 | a crumb is shown as the current page exactly when it is the last segment crumb; the root is always a link |
| Breadcrumbs.CrumbHrefsNest | frontend/components/dynamic-breadcrumbs.tsx:22-27 | every crumb's link is a prefix of the next crumb's link |
| Breadcrumbs.CrumbsIgnoreExtraSlashes | frontend/components/dynamic-breadcrumbs.tsx:16 | doubled and trailing slashes change no crumb |
| DeviceTypesPage.ParseList | frontend/app/dashboard/device-types/page.tsx:64-67 | every parsed entry is non-empty, trimmed and free of commas |
| DeviceTypesPage.ShowList | frontend/app/dashboard/device-types/page.tsx:119-120 | a missing list shows as empty text, a present one joined with ", " |
| DeviceTypesPage.Padded | frontend/app/dashboard/device-types/page.tsx:119-120 | the pieces of a ", "-joined list between commas: every entry after the first carries one leading space |
| DeviceTypesPage.JoinCommaSpace | frontend/app/dashboard/device-types/page.tsx:64-119 | joining with ", " equals joining the padded pieces with "," |
| DeviceTypesPage.PaddedEntries | frontend/app/dashboard/device-types/page.tsx:64-119 | padded entries hold no comma and trim back to the entries |
| DeviceTypesPage.ParseShowRoundTrip | frontend/app/dashboard/device-types/page.tsx:64-120 | the text the edit dialog shows for a stored list of well-formed entries parses back to that list |
| DeviceTypesPage.ParseIdempotent | frontend/app/dashboard/device-types/page.tsx:64-120 | parsing normalises: showing a parsed list and parsing it again gives the same list |
| DeviceTypesPage.AddDeviceType | frontend/app/dashboard/device-types/page.tsx:58-70 | refused with the name-required message exactly when the name is blank; otherwise name and description go as typed with both lists parsed |
| DeviceTypesPage.EditDeviceType | frontend/app/dashboard/device-types/page.tsx:80-93 | refused exactly when nothing is being edited or the name is blank; otherwise the edited type's id goes with the form |
| DeviceTypesPage.OpenEditDialog | frontend/app/dashboard/device-types/page.tsx:115-122 | the type becomes the edit target and its name, description and shown lists fill the form |
| DeviceTypesPage.UntouchedEditKeepsType | frontend/app/dashboard/device-types/page.tsx:80-122 | saving an untouched edit dialog sends the type back as stored, a missing list as an empty one |
| DevicesPage.RoomKey | frontend/app/dashboard/devices/page.tsx:163 | a device's group is its room name, or "Unassigned" when that is missing or empty; never empty |
| DevicesPage.InRoom | frontend/app/dashboard/devices/page.tsx:159-171 | a group holds only devices of the list whose room key is that group's |
| DevicesPage.GroupDevicesByRoom | frontend/app/dashboard/devices/page.tsx:159-171 | the grouping fails exactly when some device's room key is a member every object inherits; otherwise it has one key per room key that occurs, and each group holds that room's devices in list order |
| DevicesPage.ExactlyOneGroup | frontend/app/dashboard/devices/page.tsx:162-168 | every device lands in its own room's group and in no other |
| DevicesPage.InRoomIsFilter | frontend/app/dashboard/devices/page.tsx:159-171 | a group is the device list filtered by its room key |
| DevicesPage.InRoomAbsent | frontend/app/dashboard/devices/page.tsx:164-166 | a key no device has collects no device |
| DevicesPage.CountKey | frontend/app/dashboard/devices/page.tsx:159-171 | a list of distinct keys lists a key once or not at all |
| DevicesPage.GroupingKeepsCount | frontend/app/dashboard/devices/page.tsx:159-171 | over the distinct room keys, the group sizes add up to the number of devices: none lost, none duplicated |
| DevicesPage.RoomField | frontend/app/dashboard/devices/page.tsx:102 | no room chosen sends null; otherwise the room id is parsed |
| DevicesPage.Accepted | frontend/app/dashboard/devices/page.tsx:92-115 | the guard with trim accepts exactly the forms with a non-blank name and address and a chosen type |
| DevicesPage.AddDevice | frontend/app/dashboard/devices/page.tsx:91-112 | refused with the required-fields message exactly when the form is incomplete; otherwise a create with the typed name and address, parsed type and room, and empty custom data |
| DevicesPage.EditDevice | frontend/app/dashboard/devices/page.tsx:114-136 | refused exactly when nothing is being edited or the form is incomplete; otherwise an update of that device that keeps its custom data |
| DevicesPage.OpenEditDialog | frontend/app/dashboard/devices/page.tsx:150-157 | the device's name, address and type id fill the form; a null or zero room shows as no room |
| DevicesPage.UntouchedEditKeepsDevice | frontend/app/dashboard/devices/page.tsx:114-157 | saving an untouched edit dialog sends the device back as it was |
| IconPicker.Limit | frontend/components/devices/IconPicker.tsx:29 | 100 options shown without a query, 200 with one |
| IconPicker.Matching | frontend/components/devices/IconPicker.tsx:33-35 | exactly the options whose lower-cased name contains the lower-cased query, in library order |
| IconPicker.FilteredOptions | frontend/components/devices/IconPicker.tsx:27-37 | without a query the first 100 options; with one the first 200 options matching it, in order |
| IconPicker.ShownIsSubsequence | frontend/components/devices/IconPicker.tsx:27-37 | what is shown keeps the library's order and repeats nothing more often than the library |
| IconPicker.ShortResultIsComplete | frontend/components/devices/IconPicker.tsx:34-36 | when fewer than 200 options are shown for a query, every matching option is among them |
| IconPicker.QueryCaseIgnored | frontend/components/devices/IconPicker.tsx:33-35 | two queries that differ only in case show the same options |
| IconPicker.HandleSelect | frontend/components/devices/IconPicker.tsx:41-44 | the chosen name is reported to the owner and the picker closes, keeping its query |
| ApiClient.Fallback | frontend/lib/apiClient.js:20 | the default message when there is one, otherwise "Request failed with status" and the status code |
| ApiClient.FieldLine | frontend/lib/apiClient.js:38-42 | an entry gives a line exactly when its value is an array or a string: the key, a colon and the string or the space-joined array |
| ApiClient.FieldLines | frontend/lib/apiClient.js:35-43 | the collected lines are the array-or-string entries, in entry order, each made its line; so at most one line per entry |
| ApiClient.FieldLinesNameFields | frontend/lib/apiClient.js:39-41 | every collected line starts with the key of a textual entry and a colon |
| ApiClient.NoLinesIffNoTextual | frontend/lib/apiClient.js:35-48 | there are no lines exactly when no entry holds an array or a string |
| ApiClient.ErrorMessage | frontend/lib/apiClient.js:15-52 | a body that does not parse, or parses to a falsy value, gives the fallback message |
| ApiClient.HandleApiError | frontend/lib/apiClient.js:15-52 | the loop collecting field lines and the choice of message compute exactly the error message the specification function gives |
| ApiClient.DetailTakesPrecedence | frontend/lib/apiClient.js:25-27 | a string detail is the message, whatever else the body holds |
| ApiClient.NonFieldErrorsNext | frontend/lib/apiClient.js:30-32 | without a string detail, an array of non-field errors is the message, space-joined |
| ApiClient.FieldErrorsLast | frontend/lib/apiClient.js:34-51 | with neither, the field lines joined by newlines, or the fallback when no field is textual |
| ApiClient.StatusOnlyWithoutDefault | frontend/lib/apiClient.js:20-51 | with a default message the status never shows in the message |
| ApiClient.StatusMessageCarriesStatus | frontend/lib/apiClient.js:20 | the status message has the fixed prefix and the text after it reads back as the status code |
| ApiClient.AvatarUrl | frontend/lib/apiClient.js:54-59 | no URL exactly when the path is missing or empty |
| ApiClient.AvatarUrlExtendsBase | frontend/lib/apiClient.js:57-58 | the URL is the base (the absolute path, or the backend origin plus the path), then & when the base has a ? and ? when not, then t= and digits that read back as the time |
| ApiClient.AvatarUrlBustsCache | frontend/lib/apiClient.js:58 | two different times give two different avatar URLs |
| ApiClient.Part | frontend/lib/apiClient.js:124-130 | a form part is appended exactly when its value is defined |
| ApiClient.PasswordPart | frontend/lib/apiClient.js:128 | the password is sent exactly when it is defined and not blank |
| ApiClient.FormValue | frontend/lib/apiClient.js:123-133 | a field has a value in the form exactly when some part carries its name |
| ApiClient.ProfileFormField | frontend/lib/apiClient.js:122-133 | each profile field is sent under its own name with its value exactly when it is defined, the password only when not blank, the avatar only when given, and no other field |
| ApiClient.LoginBody | frontend/lib/apiClient.js:76 | the login body carries the user name trimmed and the password as typed |
| ApiClient.LoginIgnoresPadding | frontend/lib/apiClient.js:76 | padding around the user name makes no difference to what is posted |
| RegisterPage.Utf16Length | frontend/app/register/page.tsx:40 | the pattern's length counts UTF-16 code units, never fewer than the characters |
| RegisterPage.RegexMeaning | frontend/app/register/page.tsx:40-41 | the pattern accepts exactly the passwords of at least four code units with an A to Z capital and no line terminator |
| RegisterPage.AcceptedPassesValidator | frontend/app/register/page.tsx:40-41 | every password the page accepts also passes the backend's uppercase validator |
| RegisterPage.PageStricterThanValidator | frontend/app/register/page.tsx:40-41 | a lone capital passes the backend validator but not the page |
| RegisterPage.AccentedCapitalRejected | frontend/app/register/page.tsx:40 | a capital outside A to Z does not satisfy the pattern |
| RegisterPage.AstralCountsTwice | frontend/app/register/page.tsx:40 | a character outside the Basic Multilingual Plane counts twice towards the length |
| RegisterPage.LineTerminatorRejected | frontend/app/register/page.tsx:40 | a line feed anywhere rejects the password |
| RegisterPage.HandleSubmit | frontend/app/register/page.tsx:34-62 | the form is sent exactly when the pattern accepts the password and stays loading; otherwise the fixed invalid-password message is shown and loading stops |
| Validators.Validate | backend/api/validators.py:5-10 | no error exactly when the password holds an A to Z capital; the error carries the fixed message and code |
| Validators.LengthIrrelevant | backend/api/validators.py:5-10 | a lone capital passes and ten small letters fail: length plays no part |
| Validators.ExtendingKeepsValid | backend/api/validators.py:5-10 | adding characters before or after an accepted password keeps it accepted |
| AdminLayout.EffectiveRole | frontend/app/dashboard/admin/layout.tsx:19 | the profile's role when it is truthy, otherwise the role on the user |
| AdminLayout.Render | frontend/app/dashboard/admin/layout.tsx:16-46 | a spinner and no redirect while loading; afterwards the children for an admin or owner, and nothing with a redirect to the dashboard for anyone else |
| AdminLayout.ChildrenOnlyWhenAllowed | frontend/app/dashboard/admin/layout.tsx:16-46 | the children show exactly to a loaded admin or owner, and the redirect happens exactly to a loaded visitor who is neither |
| AdminLayout.AgreesWithIsAdmin | frontend/app/dashboard/admin/layout.tsx:37-40 | for a signed-in user with a profile, the layout lets in exactly those the backend's admin permission admits |
| AdminLayout.NoUserNoEntry | frontend/app/dashboard/admin/layout.tsx:20-21 | with nobody signed in the layout renders nothing and redirects |
| Permissions.OwnerIsAdmin | backend/api/permissions.py:4-23 | every requester the owner permission admits is admitted by the admin permission |
| Permissions.AdminRoles | backend/api/permissions.py:16-23 | a signed-in requester with a profile is an admin exactly when its role is owner or admin; user and viewer pass neither check |
| Permissions.NoProfileNoRole | backend/api/permissions.py:8-22 | without a sign-in or a profile nobody passes either check |
| Permissions.ReadsAllowed | backend/api/permissions.py:32-33 | GET, HEAD and OPTIONS are allowed to everyone |
| Permissions.WritesOnlyByOwner | backend/api/permissions.py:29-37 | a write is allowed exactly to the signed-in user the object names as its user or owner, and to nobody when it names neither |
| NavUser.FirstChar | frontend/components/nav-user.tsx:69 | the first character of a word, nothing for an empty word |
| NavUser.Words | frontend/components/nav-user.tsx:67-68 | the words of a name are non-empty and hold no space |
| NavUser.Firsts | frontend/components/nav-user.tsx:69-70 | one character per word, the word's first |
| NavUser.JoinedFirsts | frontend/components/nav-user.tsx:68-70 | joining the pieces' first characters gives the first characters of the non-empty pieces |
| NavUser.Initials | frontend/components/nav-user.tsx:67-72 | the initials are the upper-cased first characters of the first two words, as many as there are words up to two |
| NavUser.SameWordsSameInitials | frontend/components/nav-user.tsx:67-72 | names with the same words have the same initials |
| NavUser.JaneDoe | frontend/components/nav-user.tsx:67-72 | "Jane Doe" gives "JD" |
| NavUser.SingleWord | frontend/components/nav-user.tsx:67-72 | a single word gives its upper-cased first character |
| NavUser.EmptyName | frontend/components/nav-user.tsx:67-72 | an empty name gives no initials |
| NavUser.ExtraSpaceWords | frontend/components/nav-user.tsx:67-68 | a doubled space between two parts of a name gives the same words as a single space |
| NavUser.ExtraSpace | frontend/components/nav-user.tsx:67-72 | a doubled space changes no initial |
| NavUser.LeadingSpace | frontend/components/nav-user.tsx:67-72 | a leading space changes no initial |
| NavUser.UnreadCount | frontend/components/nav-user.tsx:57 | the fetched unread count when it is truthy, otherwise 0 |
| NavUser.UnreadDefaults | frontend/components/nav-user.tsx:50-57 | the count is 0 before any data and a positive fetched count is shown as fetched |
| MonitorDevices.MockAddresses | backend/api/management/commands/monitor_devices.py:18 | the prefix 192.168.1.1 itself is a real device, anything longer under it a mock device, and other addresses real |
| MonitorDevices.SimulatedStatus | backend/api/management/commands/monitor_devices.py:22-29 | online exactly below 0.8, offline exactly from 0.8 to below 0.9, error exactly from 0.9 |
| MonitorDevices.PingedStatus | backend/api/management/commands/monitor_devices.py:37-54 | online exactly on exit code 0, offline on any other code, error exactly when the ping could not run |
| MonitorDevices.NewStatus | backend/api/management/commands/monitor_devices.py:18-54 | a mock device gets the simulated status and any other the pinged status |
| MonitorDevices.BranchesIndependent | backend/api/management/commands/monitor_devices.py:18-54 | a mock device's status depends only on its draw and a real device's only on its ping |
| MonitorDevices.Device.constructor | backend/api/management/commands/monitor_devices.py:10 | a device row with its address and status, not yet saved by the pass |
| MonitorDevices.Handle | backend/api/management/commands/monitor_devices.py:9-56 | every device gets exactly its own new status and is saved exactly once, and no address changes |
| ProfileView.Profile.constructor | backend/api/models.py:21-23 | a new profile has no avatar and the user role |
| ProfileView.Account.constructor | backend/api/views.py:22-28 | a user row with the given id, user name, e-mail and password, empty names and no profile |
| ProfileView.State | backend/api/views.py:22-55 | the account's value has a profile exactly when the row has one |
| ProfileView.FieldOr | backend/api/views.py:35-36 | the submitted value of a field when present, else the current one |
| ProfileView.PutResult | backend/api/views.py:30-55 | an update keeps the id, user name, e-mail and password, and always leaves a profile |
| ProfileView.PutFields | backend/api/views.py:35-51 | each name changes exactly when it is submitted, the avatar exactly when a file with a name is uploaded, the role exactly when a non-empty role is submitted; a missing profile starts with the defaults |
| ProfileView.EmptyPutChangesNothing | backend/api/views.py:30-55 | an empty request leaves an account with a profile as it was |
| ProfileView.PutIdempotent | backend/api/views.py:30-55 | sending the same update twice is the same as sending it once |
| ProfileView.RoleNotChecked | backend/api/views.py:49-51 | any non-empty role is stored, including one outside the role choices |
| ProfileView.SelfPromotion | backend/api/views.py:49-51 | a user who submits the owner role then passes the owner and admin permissions |
| ProfileView.GetObject | backend/api/views.py:22-28 | the requesting user is returned with a profile, a fresh default one only when it had none, and nothing else changes |
| ProfileView.Put | backend/api/views.py:30-55 | the account and its profile after the call are exactly the update's result on the old state, on the existing profile or a fresh one |

## Left out

- Strings are sequences of code points. JavaScript `toLowerCase`/`toUpperCase` are modelled on ASCII letters only. Lengths are counted in code points, except where the registration pattern counts UTF-16 units.
- Number formatting (`toString`, `toFixed`) and number-to-text conversion in `join` are parameters. `JSON.parse` and `JSON.stringify` in the debug panel are parameters too. The model covers what happens when parsing succeeds and when it fails.
- Randomness (`random.random()`, `Math.random`), the `ping` subprocess and `Date.now()` are inputs. New canvas and widget ids are taken as given fresh ids.
- Rendering is not modelled: JSX, CSS classes, toasts, dialogs and query-cache invalidation. Only the values the components compute from their props and state are modelled, such as which nodes are drawn dimmed and greyscale.
- The `monitor_devices` command's progress lines on standard output (`backend/api/management/commands/monitor_devices.py:12-54`) are not modelled; they report, and change nothing.
- `createdAt` of a saved device is the time as an ISO 8601 string, taken as a parameter; its format is not modelled.
- BuilderStyleNode.ResolveVariant: it takes the type already as a string. The classification `data.device_type || data.type` and its throw on a value that is neither a string nor undefined are modelled once, by `TopologyBuilderNode.ClassifiedType`; the builder-style node makes the same call.
- HTTP requests, the token refresh-and-retry, local storage and `window.location` redirects are not modelled. The backend origin is a parameter of the avatar URL.
- JavaScript objects are lists of entries with distinct keys. The engine puts integer-like keys first in `Object.keys` order; the model keeps insertion order.
- Values outside JSON (functions, symbols, class instances) are not modelled.
- DeviceBuilder.BuildNode: the source recurses without bound, and a cycle of parent links makes it recurse forever. The model carries a depth bound and returns no hierarchy when the bound runs out. `CycleNeverFinishes` shows that this happens for every bound on a pair of parts linked both ways. The export passes one more than the node count as the bound. `BuildNodeFinishes` shows the recursion finishes when the edges can be ranked below the bound. That every acyclic canvas can be ranked below the node count is not proved.
- DeviceBuilder.AddEdge: reactflow's `addEdge` is external code. It is modelled as appending unless an edge with the same endpoints exists; handle ids are not compared. The animation, stroke style and arrow marker `onConnect` gives the new edge are rendering and are not modelled.
- SmartDeviceCard.Card.HandleStateChange: the debounce timer is one pending slot with no clock; `TimerFires` sends it. Timer lengths are not modelled.
- TopologyBuilderNode.KeywordType: the source's single if-chain is split in two here (`KeywordType` and `LaterKeywordType`). The split is only a naming device.
- DevicesPage.UntouchedEditKeepsDevice: requires the room id not to be 0. A room id of 0 is falsy, so the edit dialog shows it as no room and the save sends `null`.
- ELK layout (`useTopologyLayout.ts`) and the viewport and touch-distance maths of the device builder are floating-point work done for display, so they are not modelled.
- The presentational node components (`DeviceNode.tsx`, `UnifiNode.tsx`, `GlassDeviceNode.tsx`) only look up a map with a default, so they are not modelled.
- The icon library's table of names is a parameter of `IconPicker`.
- The backend engine that reviews device types and card templates is not part of this model. `backend/api/urls.py` routes to it, but its views are not in `backend/api/views.py`.
- The profile `post_save` signals (`backend/api/models.py:28-41`) are not modelled. They are ORM hooks, and the view creates a missing profile itself. The role's `max_length` of 20 is not enforced, because the view does not check it either.
- Django and DRF plumbing (routing, serializers, the admin site) and the pages that only render forms or mock data are not modelled.

## Findings

| source | as written | input that shows it | evidently intended | confidence | as-written member | corrected member |
|---|---|---|---|---|---|---|
| frontend/app/dashboard/device-builder/page.tsx:164-198 | the check compares how many ids the search visited with the number of nodes; the visited set also counts the ids of edge endpoints that are no longer nodes | nodes temperature-1, switch-2 and mcu-3; edges temperature-1→mcu-0, switch-2→mcu-0 and temperature-1→mcu-3. This canvas arises when an MCU is deleted from the canvas while its edges stay. Three ids are visited for three nodes, so the canvas is accepted, yet switch-2 is cut off | the canvas is valid exactly when every node can be reached from the MCU | not executed | DeviceBuilder.AsWrittenAcceptsDisconnectedCanvas | DeviceBuilder.ValidateGraph |
