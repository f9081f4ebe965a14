/** The UPDATE and DELETE statements the handlers send to MySQL, each as a
    function from a table to the table afterwards and the driver's
    `affectedRows` (the number of rows the WHERE clause matched). */
module Sql {
  import opened Records

  datatype Write<T> = Write(rows: map<int, T>, affected: nat)

  /** UPDATE devices SET user_id = ? WHERE id = ? AND user_id IS NULL */
  function SetHolderIfFree(rows: map<int, Device>, id: int, user: int): (w: Write<Device>)
    ensures w.affected <= 1
    ensures w.affected == 1 <==> id in rows && rows[id].holder.None?
    ensures w.affected == 0 ==> w.rows == rows
    ensures w.affected == 1 ==> OnlyHolderChanged(rows, w.rows, id, Some(user))
  {
    if id in rows && rows[id].holder.None? then
      Write(rows[id := rows[id].(holder := Some(user))], 1)
    else
      Write(rows, 0)
  }

  /** UPDATE devices SET user_id = ? WHERE id = ? */
  function SetHolder(rows: map<int, Device>, id: int, user: int): (w: Write<Device>)
    ensures w.affected <= 1
    ensures w.affected == 1 <==> id in rows
    ensures w.affected == 0 ==> w.rows == rows
    ensures w.affected == 1 ==> OnlyHolderChanged(rows, w.rows, id, Some(user))
    // writing the holder a row already has leaves the table as it was
    ensures id in rows && rows[id].holder == Some(user) ==> w.rows == rows
  {
    if id in rows then Write(rows[id := rows[id].(holder := Some(user))], 1) else Write(rows, 0)
  }

  /** UPDATE devices SET user_id = NULL WHERE id = ? */
  function ClearHolder(rows: map<int, Device>, id: int): (w: Write<Device>)
    ensures w.affected <= 1
    ensures w.affected == 1 <==> id in rows
    ensures w.affected == 0 ==> w.rows == rows
    ensures w.affected == 1 ==> OnlyHolderChanged(rows, w.rows, id, None)
  {
    if id in rows then Write(rows[id := rows[id].(holder := None)], 1) else Write(rows, 0)
  }

  /** UPDATE devices SET device_name = ?, description = ?, serial_number = ?,
      manufacturer = ? WHERE id = ? */
  function SetInfo(rows: map<int, Device>, id: int, info: DeviceInfo): (w: Write<Device>)
    ensures w.affected <= 1
    ensures w.affected == 1 <==> id in rows
    ensures w.affected == 0 ==> w.rows == rows
    ensures w.affected == 1 ==> OnlyInfoChanged(rows, w.rows, id, info)
  {
    if id in rows then Write(rows[id := rows[id].(info := info)], 1) else Write(rows, 0)
  }

  /** UPDATE devices SET image_path = ? WHERE id = ? */
  function SetDeviceImage(rows: map<int, Device>, id: int, path: string): (w: Write<Device>)
    ensures w.affected <= 1
    ensures w.affected == 1 <==> id in rows
    ensures w.affected == 0 ==> w.rows == rows
    ensures w.affected == 1 ==> OnlyDeviceImageChanged(rows, w.rows, id, path)
  {
    if id in rows then Write(rows[id := rows[id].(imagePath := Some(path))], 1) else Write(rows, 0)
  }

  /** UPDATE users SET image_path = ? WHERE id = ? */
  function SetUserImage(rows: map<int, User>, id: int, path: string): (w: Write<User>)
    ensures w.affected <= 1
    ensures w.affected == 1 <==> id in rows
    ensures w.affected == 0 ==> w.rows == rows
    ensures w.affected == 1 ==> OnlyUserImageChanged(rows, w.rows, id, path)
  {
    if id in rows then Write(rows[id := rows[id].(imagePath := Some(path))], 1) else Write(rows, 0)
  }

  /** DELETE FROM devices WHERE id = ? */
  function DeleteRow<T>(rows: map<int, T>, id: int): (w: Write<T>)
    ensures w.affected <= 1
    ensures w.affected == 1 <==> id in rows
    ensures w.rows.Keys == rows.Keys - {id}
    ensures forall k :: k in w.rows ==> w.rows[k] == rows[k]
  {
    if id in rows then Write(rows - {id}, 1) else Write(rows, 0)
  }
}
